/**
 Channel conversion and the format converter (src/format/convert.rs, src/format/mod.rs) and the
 stereo path of the resampler (src/format/resample.rs).
 */
module Convert {

  import opened Arith
  import opened Audio
  import opened Resampling

  // ---------- channels ----------

  function Downmix(l: Sample, r: Sample): Sample
  {
    TruncDiv(l + r, 2)
  }

  function StereoToMono(stereo: seq<Sample>): seq<Sample>
  {
    seq(|stereo| / 2, (i: nat) requires i < |stereo| / 2 => Downmix(stereo[2 * i], stereo[2 * i + 1]))
  }

  function MonoToStereo(mono: seq<Sample>): seq<Sample>
  {
    seq(2 * |mono|, (i: nat) requires i < 2 * |mono| => mono[i / 2])
  }

  function Left(stereo: seq<Sample>): seq<Sample>
  {
    seq(|stereo| / 2, (i: nat) requires i < |stereo| / 2 => stereo[2 * i])
  }

  function Right(stereo: seq<Sample>): seq<Sample>
  {
    seq(|stereo| / 2, (i: nat) requires i < |stereo| / 2 => stereo[2 * i + 1])
  }

  function Interleaved(l: seq<Sample>, r: seq<Sample>): seq<Sample>
    requires |l| == |r|
  {
    seq(2 * |l|, (i: nat) requires i < 2 * |l| => if i % 2 == 0 then l[i / 2] else r[i / 2])
  }

  function ResampledStereo(s: seq<Sample>, from: Rate, to: Rate): seq<Sample>
  {
    if from == to || s == [] then s
    else Interleaved(Resampled(Left(s), from, to), Resampled(Right(s), from, to))
  }

  method ResampleStereo(samples: seq<Sample>, fromRate: Rate, toRate: Rate) returns (output: seq<Sample>)
    ensures output == ResampledStereo(samples, fromRate, toRate)
  {
    hide Resampled, Left, Right, Interleaved;
    if fromRate == toRate || samples == [] {
      return samples;
    }
    var left, right := Deinterleave(samples);
    var leftResampled := Resample(left, fromRate, toRate);
    var rightResampled := Resample(right, fromRate, toRate);
    SameLength(left, right, fromRate, toRate);
    output := Interleave(leftResampled, rightResampled);
  }

  method Deinterleave(samples: seq<Sample>) returns (left: seq<Sample>, right: seq<Sample>)
    ensures left == Left(samples) && right == Right(samples) && |left| == |right|
  {
    left, right := [], [];
    for i := 0 to |samples| / 2
      invariant |left| == i && |right| == i
      invariant forall k :: 0 <= k < i ==> left[k] == samples[2 * k]
      invariant forall k :: 0 <= k < i ==> right[k] == samples[2 * k + 1]
    {
      left := left + [samples[2 * i]];
      right := right + [samples[2 * i + 1]];
    }
  }

  method Interleave(left: seq<Sample>, right: seq<Sample>) returns (output: seq<Sample>)
    requires |left| == |right|
    ensures output == Interleaved(left, right)
  {
    output := [];
    for i := 0 to Min(|left|, |right|)
      invariant |output| == 2 * i
      invariant forall k :: 0 <= k < 2 * i ==> output[k] == if k % 2 == 0 then left[k / 2] else right[k / 2]
    {
      output := output + [left[i]];
      output := output + [right[i]];
    }
  }

  lemma SameLength(a: seq<Sample>, b: seq<Sample>, from: Rate, to: Rate)
    requires |a| == |b|
    ensures |Resampled(a, from, to)| == |Resampled(b, from, to)|
  {
    hide SampleAt, OutputLen;
  }

  // ---------- the converter ----------

  datatype FormatConverter = FormatConverter(
    sourceRate: Rate,
    sourceChannels: u16,
    targetRate: Rate,
    targetChannels: u16
  ) {
    predicate IsPassthrough()
    {
      sourceRate == targetRate && sourceChannels == targetChannels
    }

    /** The samples after the channel step. */
    function Remixed(s: seq<Sample>): seq<Sample>
    {
      if sourceChannels == 2 && targetChannels == 1 then StereoToMono(s)
      else if sourceChannels == 1 && targetChannels == 2 then MonoToStereo(s)
      else s
    }

    function Rerated(s: seq<Sample>): seq<Sample>
    {
      if targetChannels == 2 then ResampledStereo(s, sourceRate, targetRate)
      else Resampled(s, sourceRate, targetRate)
    }

    /** What `convert` computes: remix, then resample; `Convert` below is the code. */
    function Converted(s: seq<Sample>): seq<Sample>
    {
      Rerated(Remixed(s))
    }

    method Convert(samples: seq<Sample>) returns (data: seq<Sample>)
      ensures data == Converted(samples)
    {
      if IsPassthrough() {
        return samples;
      }
      data := samples;
      if sourceChannels == 2 && targetChannels == 1 {
        data := StereoToMono(data);
      } else if sourceChannels == 1 && targetChannels == 2 {
        data := MonoToStereo(data);
      }
      if sourceRate != targetRate {
        if targetChannels == 2 {
          data := ResampleStereo(data, sourceRate, targetRate);
        } else {
          data := Resample(data, sourceRate, targetRate);
        }
      }
    }
  }

  // ---------- what the converter makes of each channel ----------

  /** Stereo to mono at one rate: every frame becomes the mean of its two samples, rounded toward zero. */
  lemma MonoOfStereo(conv: FormatConverter, x: seq<Sample>)
    requires conv.sourceChannels == 2 && conv.targetChannels == 1 && conv.sourceRate == conv.targetRate
    ensures |conv.Converted(x)| == |x| / 2
    ensures forall i :: 0 <= i < |x| / 2 ==>
              conv.Converted(x)[i] as int == TruncDiv(x[2 * i] as int + x[2 * i + 1] as int, 2)
  {
    hide TruncDiv;
  }

  /** Stereo to mono at any rates: the means of the frames, resampled. */
  lemma MonoOfStereoResampled(conv: FormatConverter, x: seq<Sample>, m: seq<Sample>)
    requires conv.sourceChannels == 2 && conv.targetChannels == 1 && |m| == |x| / 2
    requires forall i :: 0 <= i < |m| ==> m[i] as int == TruncDiv(x[2 * i] as int + x[2 * i + 1] as int, 2)
    ensures conv.Converted(x) == Resampled(m, conv.sourceRate, conv.targetRate)
  {
    hide TruncDiv, Resampled, StereoToMono;
    StereoToMonoIs(x, m);
  }

  lemma StereoToMonoIs(x: seq<Sample>, m: seq<Sample>)
    requires |m| == |x| / 2
    requires forall i :: 0 <= i < |m| ==> m[i] as int == TruncDiv(x[2 * i] as int + x[2 * i + 1] as int, 2)
    ensures StereoToMono(x) == m
  {
    hide TruncDiv;
    forall i | 0 <= i < |m|
      ensures StereoToMono(x)[i] == m[i]
    {
      PairAt(x, i);
    }
  }

  /**
   Stereo to stereo: even positions are the resampled left channel, odd ones the resampled right channel. So it is
   with any other source but mono, whose samples are taken for left and right as they come.
   */
  lemma StereoKeepsChannels(conv: FormatConverter, x: seq<Sample>, l: seq<Sample>, r: seq<Sample>)
    requires conv.sourceChannels != 1 && conv.targetChannels == 2 && |x| % 2 == 0 && |l| == |r| == |x| / 2
    requires forall i :: 0 <= i < |l| ==> l[i] == x[2 * i] && r[i] == x[2 * i + 1]
    ensures var y, l', r' := conv.Converted(x), Resampled(l, conv.sourceRate, conv.targetRate),
                             Resampled(r, conv.sourceRate, conv.targetRate);
            |y| == 2 * |l'| && |l'| == |r'| && forall i :: 0 <= i < |l'| ==> y[2 * i] == l'[i] && y[2 * i + 1] == r'[i]
  {
    hide Resampled, Interleaved;
    assert Left(x) == l && Right(x) == r;
    SameLength(l, r, conv.sourceRate, conv.targetRate);
    if conv.sourceRate == conv.targetRate || x == [] {
      ResampledTrivially(l, conv.sourceRate, conv.targetRate);
      ResampledTrivially(r, conv.sourceRate, conv.targetRate);
    } else {
      InterleavedEverywhere(Resampled(l, conv.sourceRate, conv.targetRate),
                            Resampled(r, conv.sourceRate, conv.targetRate));
    }
  }

  lemma InterleavedEverywhere(l: seq<Sample>, r: seq<Sample>)
    requires |l| == |r|
    ensures |Interleaved(l, r)| == 2 * |l|
    ensures forall i :: 0 <= i < |l| ==> Interleaved(l, r)[2 * i] == l[i] && Interleaved(l, r)[2 * i + 1] == r[i]
  {
    hide Interleaved;
    InterleavedLength(l, r);
    forall i | 0 <= i < |l|
      ensures Interleaved(l, r)[2 * i] == l[i] && Interleaved(l, r)[2 * i + 1] == r[i]
    {
      InterleavedAt(l, r, i);
    }
  }

  lemma InterleavedLength(l: seq<Sample>, r: seq<Sample>)
    requires |l| == |r|
    ensures |Interleaved(l, r)| == 2 * |l|
  {
  }

  /** Mono to stereo: the resampled signal in both channels. */
  lemma MonoInBothChannels(conv: FormatConverter, x: seq<Sample>)
    requires conv.sourceChannels == 1 && conv.targetChannels == 2
    ensures var y, m := conv.Converted(x), Resampled(x, conv.sourceRate, conv.targetRate);
            |y| == 2 * |m| && forall i :: 0 <= i < |m| ==> y[2 * i] == m[i] && y[2 * i + 1] == m[i]
  {
    hide Resampled, ResampledStereo, MonoToStereo;
    UpmixCommutesWithResampling(x, conv.sourceRate, conv.targetRate);
    var m := Resampled(x, conv.sourceRate, conv.targetRate);
    DuplicatedLength(m);
    forall i | 0 <= i < |m|
      ensures MonoToStereo(m)[2 * i] == m[i] && MonoToStereo(m)[2 * i + 1] == m[i]
    {
      DuplicatedAt(m, i);
    }
  }

  /** Every other pair of channel counts is left as it is: at one rate nothing changes, and else all is resampled. */
  lemma OtherChannelsPass(conv: FormatConverter, x: seq<Sample>)
    requires !(conv.sourceChannels == 2 && conv.targetChannels == 1)
    requires !(conv.sourceChannels == 1 && conv.targetChannels == 2)
    ensures conv.sourceRate == conv.targetRate ==> conv.Converted(x) == x
    ensures conv.targetChannels != 2 ==> conv.Converted(x) == Resampled(x, conv.sourceRate, conv.targetRate)
  {
    hide SampleAt, OutputLen;
  }

  /** Two frames, to mono: the mean of each. */
  lemma TwoFramesToMono()
    ensures FormatConverter(16000, 2, 16000, 1).Converted([100, 200, 300, 400]) == [150, 350]
  {
    var conv, x: seq<Sample> := FormatConverter(16000, 2, 16000, 1), [100, 200, 300, 400];
    MonoOfStereo(conv, x);
    var y := conv.Converted(x);
    assert |y| == 2 && y[0] as int == 150 && y[1] as int == 350;
  }

  // ---------- remix first or resample first ----------

  lemma DuplicatedAt(mono: seq<Sample>, i: nat)
    requires i < |mono|
    ensures |MonoToStereo(mono)| == 2 * |mono|
    ensures MonoToStereo(mono)[2 * i] == mono[i] && MonoToStereo(mono)[2 * i + 1] == mono[i]
  {
  }

  lemma DuplicatedLength(mono: seq<Sample>)
    ensures |MonoToStereo(mono)| == 2 * |mono|
  {
  }

  lemma DeinterleaveDuplicated(mono: seq<Sample>)
    ensures Left(MonoToStereo(mono)) == mono && Right(MonoToStereo(mono)) == mono
  {
    hide MonoToStereo;
    var stereo := MonoToStereo(mono);
    DuplicatedLength(mono);
    forall i | 0 <= i < |mono|
      ensures Left(stereo)[i] == mono[i] && Right(stereo)[i] == mono[i]
    {
      DuplicatedAt(mono, i);
    }
  }

  /** Duplicating the channel before or after resampling gives the same samples. */
  lemma UpmixCommutesWithResampling(mono: seq<Sample>, from: Rate, to: Rate)
    ensures ResampledStereo(MonoToStereo(mono), from, to) == MonoToStereo(Resampled(mono, from, to))
  {
    DeinterleaveDuplicated(mono);
    hide Resampled;
    if from == to || mono == [] {
      assert Resampled(mono, from, to) == mono by { ResampledTrivially(mono, from, to); }
    } else {
      var r := Resampled(mono, from, to);
      assert Interleaved(r, r) == MonoToStereo(r);
    }
  }

  lemma ResampledTrivially(s: seq<Sample>, from: Rate, to: Rate)
    requires from == to || s == []
    ensures Resampled(s, from, to) == s
  {
  }

  lemma DownmixInterleaved(l: seq<Sample>, r: seq<Sample>)
    requires |l| == |r|
    ensures |StereoToMono(Interleaved(l, r))| == |l|
    ensures forall i :: 0 <= i < |l| ==> StereoToMono(Interleaved(l, r))[i] == Downmix(l[i], r[i])
  {
    hide Downmix;
    var both := Interleaved(l, r);
    forall i | 0 <= i < |l|
      ensures StereoToMono(both)[i] == Downmix(l[i], r[i])
    {
      InterleavedAt(l, r, i);
      PairAt(both, i);
    }
  }

  lemma InterleavedAt(l: seq<Sample>, r: seq<Sample>, i: nat)
    requires i < |l| == |r|
    ensures |Interleaved(l, r)| == 2 * |l|
    ensures Interleaved(l, r)[2 * i] == l[i] && Interleaved(l, r)[2 * i + 1] == r[i]
  {
  }

  /** As many samples, and no two at the same place further apart than `d`. */
  ghost predicate Within(d: nat, a: seq<Sample>, b: seq<Sample>)
  {
    |a| == |b| && forall i :: 0 <= i < |a| ==> Near(d, a[i], b[i])
  }

  predicate Near(d: int, x: int, y: int)
  {
    -d <= x - y <= d
  }

  /**
   The converter remixes before it resamples, "fewer samples to resample". The other order gives as
   many samples, and no sample differs by more than one.
   */
  lemma DownmixBeforeOrAfterResampling(x: seq<Sample>, from: Rate, to: Rate)
    requires |x| % 2 == 0
    ensures Within(1, Resampled(StereoToMono(x), from, to), StereoToMono(ResampledStereo(x, from, to)))
  {
    hide *;
    if from == to || x == [] {
      TrivialOrder(x, from, to);
    } else {
      ResampledStereoIs(x, from, to);
      var l', r' := Resampled(Left(x), from, to), Resampled(Right(x), from, to);
      var first, after := Resampled(StereoToMono(x), from, to), StereoToMono(Interleaved(l', r'));
      DownmixInterleaved(l', r');
      forall i | 0 <= i < |first|
        ensures Near(1, first[i], after[i])
      {
        DownmixOfResampledAt(x, from, to, i);
      }
      AllWithin(first, after);
    }
  }

  lemma TrivialOrder(x: seq<Sample>, from: Rate, to: Rate)
    requires from == to || x == []
    ensures Within(1, Resampled(StereoToMono(x), from, to), StereoToMono(ResampledStereo(x, from, to)))
  {
    hide Interleaved, Downmix, SampleAt;
  }

  lemma ResampledStereoIs(x: seq<Sample>, from: Rate, to: Rate)
    requires from != to && x != [] && |x| % 2 == 0
    ensures |Resampled(StereoToMono(x), from, to)| == |Resampled(Left(x), from, to)| == |Resampled(Right(x), from, to)|
    ensures ResampledStereo(x, from, to) == Interleaved(Resampled(Left(x), from, to), Resampled(Right(x), from, to))
  {
    hide Resampled, Interleaved, Downmix;
    SameLength(StereoToMono(x), Left(x), from, to);
    SameLength(Left(x), Right(x), from, to);
  }

  lemma AllWithin(a: seq<Sample>, b: seq<Sample>)
    requires |a| == |b| && forall i :: 0 <= i < |a| ==> Near(1, a[i], b[i])
    ensures Within(1, a, b)
  {
  }

  lemma DownmixOfResampledAt(x: seq<Sample>, from: Rate, to: Rate, i: nat)
    requires from != to && x != [] && |x| % 2 == 0
    requires i < |Resampled(StereoToMono(x), from, to)|
    ensures |Resampled(StereoToMono(x), from, to)| == |Resampled(Left(x), from, to)| == |Resampled(Right(x), from, to)|
    ensures Near(1, Resampled(StereoToMono(x), from, to)[i],
                 Downmix(Resampled(Left(x), from, to)[i], Resampled(Right(x), from, to)[i]))
  {
    hide SampleAt, OutputLen, Downmix;
    SameLength(StereoToMono(x), Left(x), from, to);
    SameLength(Left(x), Right(x), from, to);
    DownmixOfSampleAt(x, from, to, i);
  }

  lemma DownmixOfSampleAt(x: seq<Sample>, from: Rate, to: Rate, i: nat)
    requires |x| % 2 == 0 && i < OutputLen(|x| / 2, from, to)
    ensures |StereoToMono(x)| == |Left(x)| == |Right(x)| == |x| / 2
    ensures Near(1, SampleAt(StereoToMono(x), from, to, i),
                 Downmix(SampleAt(Left(x), from, to, i), SampleAt(Right(x), from, to, i)))
  {
    hide OutputLen, TruncDiv, Interpolate;
    SourceIndexInRange(|x| / 2, from, to, i);
    var j, r := i * from / to, i * from % to;
    PairAt(x, j);
    if j + 1 < |x| / 2 {
      PairAt(x, j + 1);
      DownmixOfInterpolated(x[2 * j], x[2 * j + 1], x[2 * (j + 1)], x[2 * (j + 1) + 1], r, to);
    }
  }

  lemma PairAt(x: seq<Sample>, j: nat)
    requires j < |x| / 2
    ensures Left(x)[j] == x[2 * j] && Right(x)[j] == x[2 * j + 1]
    ensures StereoToMono(x)[j] == Downmix(x[2 * j], x[2 * j + 1])
  {
  }

  lemma DownmixOfInterpolated(l1: Sample, r1: Sample, l2: Sample, r2: Sample, r: int, to: Rate)
    requires 0 <= r < to
    ensures Near(1, Interpolate(Downmix(l1, r1), Downmix(l2, r2), r, to),
                 Downmix(Interpolate(l1, l2, r, to), Interpolate(r1, r2, r, to)))
  {
    hide *;
    var m1, m2 := Downmix(l1, r1), Downmix(l2, r2);
    DownmixError(l1, r1);
    DownmixError(l2, r2);
    WeightedDownmixError(l1, r1, l2, r2, m1, m2, r, to);
    var nl, nr, nm := l1 * to + (l2 - l1) * r, r1 * to + (r2 - r1) * r, m1 * to + (m2 - m1) * r;
    InterpolateUnfolds(l1, l2, r, to);
    InterpolateUnfolds(r1, r2, r, to);
    InterpolateUnfolds(m1, m2, r, to);
    DownmixErrorOneSided(nl, nr, nm, to);
    DownmixErrorOneSided(-nl, -nr, -nm, to);
    NearIs(TruncDiv(nm, to), TruncDiv(nl, to), TruncDiv(nr, to));
  }

  lemma NearIs(m: int, l: Sample, r: Sample)
    requires -1 <= m - TruncDiv(l + r, 2) <= 1
    ensures Near(1, m, Downmix(l, r))
  {
    hide TruncDiv;
  }

  lemma DownmixError(l: Sample, r: Sample)
    ensures -1 <= 2 * (Downmix(l, r) as int) - (l as int + r as int) <= 1
  {
  }

  lemma WeightedDownmixError(l1: int, r1: int, l2: int, r2: int, m1: int, m2: int, r: int, to: int)
    requires 0 <= r < to && -1 <= 2 * m1 - (l1 + r1) <= 1 && -1 <= 2 * m2 - (l2 + r2) <= 1
    ensures -to <= 2 * (m1 * to + (m2 - m1) * r) - ((l1 * to + (l2 - l1) * r) + (r1 * to + (r2 - r1) * r)) <= to
  {
    var e1, e2 := 2 * m1 - (l1 + r1), 2 * m2 - (l2 + r2);
    WeightedError(e1, e2, r, to);
    assert e1 * (to - r) + e2 * r
        == 2 * (m1 * to + (m2 - m1) * r) - ((l1 * to + (l2 - l1) * r) + (r1 * to + (r2 - r1) * r));
  }

  lemma WeightedError(e1: int, e2: int, r: int, to: int)
    requires -1 <= e1 <= 1 && -1 <= e2 <= 1 && 0 <= r < to
    ensures -to <= e1 * (to - r) + e2 * r <= to
  {
    MulMonotone(e1, 1, to - r);
    MulMonotone(-1, e1, to - r);
    MulMonotone(e2, 1, r);
    MulMonotone(-1, e2, r);
  }

  /** One side of the bound; the other is this one for the negated signals. */
  lemma DownmixErrorOneSided(nl: int, nr: int, nm: int, to: Rate)
    requires -(to as int) <= 2 * nm - (nl + nr) <= to
    ensures TruncDiv(nm, to) - TruncDiv(TruncDiv(nl, to) + TruncDiv(nr, to), 2) <= 1
    ensures TruncDiv(-nm, to) == -TruncDiv(nm, to)
    ensures TruncDiv(TruncDiv(-nl, to) + TruncDiv(-nr, to), 2) == -TruncDiv(TruncDiv(nl, to) + TruncDiv(nr, to), 2)
  {
    hide *;
    TruncDivIsOdd(nm, to);
    TruncDivIsOdd(nl, to);
    TruncDivIsOdd(nr, to);
    var tl, tr := TruncDiv(nl, to), TruncDiv(nr, to);
    TruncDivIsOdd(tl + tr, 2);
    DownmixErrorAbove(nl, nr, nm, tl, tr, TruncDiv(nm, to), TruncDiv(tl + tr, 2), to);
  }

  lemma DownmixErrorAbove(nl: int, nr: int, nm: int, tl: int, tr: int, a: int, b: int, to: int)
    requires 0 < to && -to <= 2 * nm - (nl + nr) <= to
    requires tl == TruncDiv(nl, to) && tr == TruncDiv(nr, to) && a == TruncDiv(nm, to) && b == TruncDiv(tl + tr, 2)
    ensures a - b <= 1
  {
    hide *;
    TruncDivBounds(nm, to);
    TruncDivBounds(nl, to);
    TruncDivBounds(nr, to);
    HalfSum(tl, tr, b, to);
    if nm < 0 && 0 < tl + tr {
      MulCancels(a, 1, to);
    } else {
      QuotientsOfHalfSum(nl, nr, nm, tl * to, tr * to, a * to, b * to, 0 < tl + tr, to);
      Distribute(b, 2, to);
      MulCancels(a, b + 2, to);
    }
  }

  lemma TruncDivIsOdd(a: int, b: int)
    requires 0 < b
    ensures TruncDiv(-a, b) == -TruncDiv(a, b)
  {
    if a == 0 { DivIsUnique(0, b, 0); }
  }

  lemma HalfSum(tl: int, tr: int, b: int, to: int)
    requires 0 < to && b == TruncDiv(tl + tr, 2)
    ensures tl * to + tr * to - to <= 2 * (b * to)
    ensures tl + tr <= 0 ==> tl * to + tr * to <= 2 * (b * to)
    ensures 0 < tl + tr ==> 0 <= b
  {
    var d := 2 * b - (tl + tr);
    assert d * to == 2 * (b * to) - (tl * to + tr * to);
    MulMonotone(-1, d, to);
    if tl + tr <= 0 { MulMonotone(0, d, to); }
  }

  /** The bound on the products with `to`; everything here is linear. */
  lemma QuotientsOfHalfSum(nl: int, nr: int, nm: int, tl: int, tr: int, a: int, b: int, positive: bool, to: int)
    requires 0 < to && -to <= 2 * nm - (nl + nr) <= to
    requires 0 <= nl ==> 0 <= tl <= nl < tl + to
    requires nl <= 0 ==> tl - to < nl <= tl <= 0
    requires 0 <= nr ==> 0 <= tr <= nr < tr + to
    requires nr <= 0 ==> tr - to < nr <= tr <= 0
    requires 0 <= nm ==> 0 <= a <= nm < a + to
    requires nm <= 0 ==> a - to < nm <= a <= 0
    requires tl + tr - to <= 2 * b && (positive || tl + tr <= 2 * b)
    requires 0 <= nm || !positive
    ensures a < b + 2 * to
  {
  }

  /** The bound is met: with these two frames at 1:2, the two orders differ by one. */
  lemma DownmixOrderMatters()
    ensures Resampled(StereoToMono([-4, -4, -3, -1]), 1, 2) == [-4, -3, -2, -2]
    ensures StereoToMono(ResampledStereo([-4, -4, -3, -1], 1, 2)) == [-4, -2, -2, -2]
  {
    hide Resampled, Interleaved;
    var x: seq<Sample> := [-4, -4, -3, -1];
    ResampleTwoAtOneToTwo(-4, -2);
    ResampleTwoAtOneToTwo(-4, -3);
    ResampleTwoAtOneToTwo(-4, -1);
    assert StereoToMono(x) == [-4, -2];
    assert Left(x) == [-4, -3] && Right(x) == [-4, -1];
    DownmixInterleaved([-4, -3, -3, -3], [-4, -2, -1, -1]);
  }

  lemma ResampleTwoAtOneToTwo(a: Sample, b: Sample)
    ensures Resampled([a, b], 1, 2) == [a, TruncDiv(a + b, 2), b, b]
  {
    assert OutputLen(2, 1, 2) == 4;
    assert SampleAt([a, b], 1, 2, 0) == a;
    assert SampleAt([a, b], 1, 2, 1) == TruncDiv(a + b, 2);
    assert SampleAt([a, b], 1, 2, 2) == b;
    assert SampleAt([a, b], 1, 2, 3) == b;
  }
}
