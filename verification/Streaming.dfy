/**
 Converting a stream chunk by chunk (src/pipeline/capture.rs with src/format/mod.rs): the lengths the
 converter produces, and when the converted chunks, put end to end, are the converted stream.
 */
module Streaming {

  import opened Arith
  import opened Audio
  import opened Resampling
  import opened Chunkwise
  import opened Convert

  /** Mono or stereo on both sides: the only channel counts `convert` remixes. */
  predicate MonoOrStereo(conv: FormatConverter)
  {
    (conv.sourceChannels == 1 || conv.sourceChannels == 2) && (conv.targetChannels == 1 || conv.targetChannels == 2)
  }

  /** `n` samples are whole frames, and converting them loses nothing at their end. */
  predicate ExactSamples(conv: FormatConverter, n: nat)
    requires MonoOrStereo(conv)
  {
    n % conv.sourceChannels == 0 && ChunkExact(n / conv.sourceChannels, conv.sourceRate, conv.targetRate)
  }

  /** Frames out for `n` frames in. */
  function FramesOut(conv: FormatConverter, n: nat): nat
  {
    if conv.sourceRate == conv.targetRate then n else OutputLen(n, conv.sourceRate, conv.targetRate)
  }

  // ---------- concatenation, step by step through the converter ----------

  lemma PairsConcat(x: seq<Sample>, y: seq<Sample>)
    requires |x| % 2 == 0
    ensures StereoToMono(x + y) == StereoToMono(x) + StereoToMono(y)
    ensures Left(x + y) == Left(x) + Left(y) && Right(x + y) == Right(x) + Right(y)
  {
    hide Downmix, StereoToMono, Left, Right;
    var z, h := x + y, |x| / 2;
    PairsLengths(x);
    PairsLengths(y);
    PairsLengths(z);
    forall i | 0 <= i < |z| / 2
      ensures StereoToMono(z)[i] == (StereoToMono(x) + StereoToMono(y))[i]
      ensures Left(z)[i] == (Left(x) + Left(y))[i] && Right(z)[i] == (Right(x) + Right(y))[i]
    {
      PairAt(z, i);
      if i < h {
        PairAt(x, i);
      } else {
        PairAt(y, i - h);
      }
    }
  }

  lemma PairsLengths(x: seq<Sample>)
    ensures |StereoToMono(x)| == |Left(x)| == |Right(x)| == |x| / 2
  {
  }

  lemma MonoToStereoConcat(x: seq<Sample>, y: seq<Sample>)
    ensures MonoToStereo(x + y) == MonoToStereo(x) + MonoToStereo(y)
  {
    forall i | 0 <= i < 2 * |x + y|
      ensures (x + y)[i / 2] == (if i < 2 * |x| then x[i / 2] else y[(i - 2 * |x|) / 2])
    {
    }
  }

  lemma InterleavedConcat(l: seq<Sample>, r: seq<Sample>, l': seq<Sample>, r': seq<Sample>)
    requires |l| == |r| && |l'| == |r'|
    ensures Interleaved(l + l', r + r') == Interleaved(l, r) + Interleaved(l', r')
  {
    forall i | 0 <= i < 2 * |l + l'|
      ensures (l + l')[i / 2] == (if i < 2 * |l| then l[i / 2] else l'[(i - 2 * |l|) / 2])
      ensures (r + r')[i / 2] == (if i < 2 * |l| then r[i / 2] else r'[(i - 2 * |l|) / 2])
    {
    }
  }

  lemma ResampledStereoConcat(x: seq<Sample>, y: seq<Sample>, from: Rate, to: Rate)
    requires |x| % 2 == 0 && ChunkExact(|x| / 2, from, to)
    ensures ResampledStereo(x + y, from, to) == ResampledStereo(x, from, to) + ResampledStereo(y, from, to)
  {
    hide Resampled, ChunkExact, Interleaved, StereoToMono;
    if from == to || x == [] || y == [] {
      assert x == [] ==> x + y == y;
      assert y == [] ==> x + y == x;
    } else {
      PairsConcat(x, y);
      ResampleConcat(Left(x), Left(y), from, to);
      ResampleConcat(Right(x), Right(y), from, to);
      SameLength(Left(x), Right(x), from, to);
      SameLength(Left(y), Right(y), from, to);
      InterleavedConcat(Resampled(Left(x), from, to), Resampled(Right(x), from, to),
                        Resampled(Left(y), from, to), Resampled(Right(y), from, to));
    }
  }

  lemma {:induction false} ConvertConcat(conv: FormatConverter, x: seq<Sample>, y: seq<Sample>)
    requires MonoOrStereo(conv) && ExactSamples(conv, |x|)
    ensures conv.Converted(x + y) == conv.Converted(x) + conv.Converted(y)
  {
    hide ChunkExact, Resampled, ResampledStereo, StereoToMono, MonoToStereo;
    var rx, ry := conv.Remixed(x), conv.Remixed(y);
    RemixConcat(conv, x, y);
    RemixedLength(conv, x);
    if conv.targetChannels == 2 {
      ResampledStereoConcat(rx, ry, conv.sourceRate, conv.targetRate);
    } else {
      ResampleConcat(rx, ry, conv.sourceRate, conv.targetRate);
    }
  }

  lemma RemixConcat(conv: FormatConverter, x: seq<Sample>, y: seq<Sample>)
    requires MonoOrStereo(conv) && |x| % conv.sourceChannels == 0
    ensures conv.Remixed(x + y) == conv.Remixed(x) + conv.Remixed(y)
  {
    hide StereoToMono, MonoToStereo;
    if conv.sourceChannels == 2 && conv.targetChannels == 1 {
      PairsConcat(x, y);
    } else if conv.sourceChannels == 1 && conv.targetChannels == 2 {
      MonoToStereoConcat(x, y);
    }
  }

  lemma RemixedLength(conv: FormatConverter, x: seq<Sample>)
    requires MonoOrStereo(conv) && |x| % conv.sourceChannels == 0
    ensures |conv.Remixed(x)| == |x| / conv.sourceChannels * conv.targetChannels
  {
  }

  /** Whole frames in, whole frames out, and how many. */
  lemma ConvertedLength(conv: FormatConverter, x: seq<Sample>)
    requires MonoOrStereo(conv) && |x| % conv.sourceChannels == 0
    ensures |conv.Converted(x)| == FramesOut(conv, |x| / conv.sourceChannels) * conv.targetChannels
  {
    hide Resampled, StereoToMono, MonoToStereo, OutputLen;
    RemixedLength(conv, x);
    var s, n := conv.Remixed(x), |x| / conv.sourceChannels;
    hide FormatConverter.Remixed;
    if conv.sourceRate != conv.targetRate {
      NothingFromNothing(conv.sourceRate, conv.targetRate);
      if conv.targetChannels == 2 {
        LengthOfResampled(Left(s), conv.sourceRate, conv.targetRate);
        LengthOfResampled(Right(s), conv.sourceRate, conv.targetRate);
      } else {
        LengthOfResampled(s, conv.sourceRate, conv.targetRate);
      }
    } else {
      ResampledTrivially(s, conv.sourceRate, conv.targetRate);
    }
  }

  lemma NothingFromNothing(from: Rate, to: Rate)
    ensures OutputLen(0, from, to) == 0
  {
    CeilDivIsUnique(0, from, 0);
  }

  lemma LengthOfResampled(s: seq<Sample>, from: Rate, to: Rate)
    requires from != to
    ensures |Resampled(s, from, to)| == OutputLen(|s|, from, to)
  {
    hide SampleAt, CeilDiv;
    NothingFromNothing(from, to);
  }

  // ---------- whole streams ----------

  lemma ExactSum(conv: FormatConverter, m: nat, n: nat)
    requires MonoOrStereo(conv) && ExactSamples(conv, m) && ExactSamples(conv, n)
    ensures ExactSamples(conv, m + n)
  {
    hide ChunkExact;
    var c := conv.sourceChannels;
    var p, q := m / c, n / c;
    ExactQuotient(m, c);
    ExactQuotient(n, c);
    WholeSum(m, n, c, p, q);
    ChunkExactSum(p, q, conv.sourceRate, conv.targetRate);
  }

  lemma ExactQuotient(m: nat, c: int)
    requires 0 < c && m % c == 0
    ensures m == m / c * c && 0 <= m / c
  {
    QuotientIsNat(m, c);
  }

  lemma WholeSum(m: nat, n: nat, c: int, p: nat, q: nat)
    requires 0 < c && m == p * c && n == q * c
    ensures (m + n) % c == 0 && (m + n) / c == p + q
  {
    Distribute(p, q, c);
    DivModIsUnique(m + n, c, p + q, 0);
  }

  lemma ChunkExactSum(p: nat, q: nat, from: Rate, to: Rate)
    requires ChunkExact(p, from, to) && ChunkExact(q, from, to)
    ensures ChunkExact(p + q, from, to)
  {
    if from != to {
      MultiplesAdd(p * to, q * to, from);
      Distribute(p, q, to);
    }
  }

  lemma MultiplesAdd(a: int, b: int, c: int)
    requires 0 < c && a % c == 0 && b % c == 0
    ensures (a + b) % c == 0
  {
    var p, q := a / c, b / c;
    assert a == p * c && b == q * c;
    Distribute(p, q, c);
    DivModIsUnique(a + b, c, p + q, 0);
  }

  /** The chunks one source's converter makes of a list of device chunks, without their timestamps. */
  function ConvertedSamples(conv: FormatConverter, chunks: seq<Chunk>): seq<Sample>
  {
    if chunks == [] then []
    else ConvertedSamples(conv, chunks[..|chunks| - 1]) + conv.Converted(chunks[|chunks| - 1].samples)
  }

  /** Every chunk but the last holds whole, exactly converted frames. */
  ghost predicate AllButLastExact(conv: FormatConverter, chunks: seq<Chunk>)
    requires MonoOrStereo(conv)
  {
    forall i :: 0 <= i < |chunks| - 1 ==> ExactSamples(conv, |chunks[i].samples|)
  }

  lemma {:induction false} ExactPrefix(conv: FormatConverter, chunks: seq<Chunk>)
    requires MonoOrStereo(conv)
    requires chunks != [] && forall i :: 0 <= i < |chunks| ==> ExactSamples(conv, |chunks[i].samples|)
    ensures ExactSamples(conv, |SamplesOf(chunks)|)
  {
    hide ExactSamples;
    var init, last := chunks[..|chunks| - 1], chunks[|chunks| - 1];
    if init == [] {
      assert SamplesOf(chunks) == [] + last.samples == last.samples;
    } else {
      ExactPrefix(conv, init);
      ExactSum(conv, |SamplesOf(init)|, |last.samples|);
    }
  }

  /**
   Streaming equals whole: with every chunk but the last exact, the converted chunks end to end are
   the conversion of the whole stream.
   */
  lemma {:induction false} StreamingEqualsWhole(conv: FormatConverter, chunks: seq<Chunk>)
    requires MonoOrStereo(conv) && AllButLastExact(conv, chunks)
    ensures ConvertedSamples(conv, chunks) == conv.Converted(SamplesOf(chunks))
  {
    hide FormatConverter.Converted, ExactSamples;
    if chunks == [] {
      ConvertedOfNothing(conv);
    } else {
      var init, last := chunks[..|chunks| - 1], chunks[|chunks| - 1];
      StreamingEqualsWhole(conv, init);
      if init == [] {
        ConvertedOfNothing(conv);
        assert [] + last.samples == last.samples;
        assert [] + conv.Converted(last.samples) == conv.Converted(last.samples);
      } else {
        ExactPrefix(conv, init);
        ConvertConcat(conv, SamplesOf(init), last.samples);
      }
    }
  }

  lemma ConvertedOfNothing(conv: FormatConverter)
    ensures conv.Converted([]) == []
  {
  }

  // ---------- the exact condition ----------

  /** Every chunk holds `n` samples. */
  ghost predicate AllOf(chunks: seq<Chunk>, n: nat)
  {
    forall i :: 0 <= i < |chunks| ==> |chunks[i].samples| == n
  }

  /** Converting chunk by chunk is converting the stream, whatever the samples and however many chunks. */
  ghost predicate StreamsExactly(conv: FormatConverter, n: nat)
  {
    forall chunks | AllOf(chunks, n) :: ConvertedSamples(conv, chunks) == conv.Converted(SamplesOf(chunks))
  }

  lemma {:induction false} AllOfLengths(conv: FormatConverter, chunks: seq<Chunk>, frames: nat)
    requires MonoOrStereo(conv) && AllOf(chunks, frames * conv.sourceChannels)
    ensures |SamplesOf(chunks)| == |chunks| * frames * conv.sourceChannels
    ensures |ConvertedSamples(conv, chunks)| == |chunks| * FramesOut(conv, frames) * conv.targetChannels
  {
    hide FormatConverter.Converted, FramesOut;
    if chunks != [] {
      var init, last := chunks[..|chunks| - 1], chunks[|chunks| - 1];
      AllOfLengths(conv, init, frames);
      WholeFrames(frames, conv.sourceChannels);
      ConvertedLength(conv, last.samples);
      OneMoreChunk(|init|, frames, conv.sourceChannels);
      OneMoreChunk(|init|, FramesOut(conv, frames), conv.targetChannels);
    }
  }

  lemma WholeFrames(frames: nat, channels: u16)
    requires 0 < channels
    ensures frames * channels % channels == 0 && frames * channels / channels == frames
  {
    DivModIsUnique(frames * channels, channels, frames, 0);
  }

  lemma OneMoreChunk(n: nat, frames: nat, channels: u16)
    ensures n * frames * channels + frames * channels == (n + 1) * frames * channels
  {
    Distribute(n, 1, frames);
    Distribute(n * frames, frames, channels);
  }

  /** Chunks that end inside an output frame: after `sourceRate` of them, the pieces are longer than the whole. */
  lemma InexactChunksGrow(conv: FormatConverter, frames: nat)
    requires MonoOrStereo(conv) && conv.sourceRate != conv.targetRate
    requires frames * conv.targetRate % conv.sourceRate != 0
    ensures !StreamsExactly(conv, frames * conv.sourceChannels)
  {
    hide FormatConverter.Converted, ConvertedSamples, SamplesOf, FramesOut;
    var from := conv.sourceRate;
    var silence: seq<Sample> := seq(frames * conv.sourceChannels, (_: nat) => 0);
    var chunks := seq(from, (_: nat) => Chunk(silence, 0.0, from, conv.sourceChannels, None));
    AllOfLengths(conv, chunks, frames);
    WholeFrames(from * frames, conv.sourceChannels);
    ConvertedLength(conv, SamplesOf(chunks));
    PiecesAreLonger(conv, frames);
    MulStrictlyMonotone(FramesOut(conv, from * frames), from * FramesOut(conv, frames), conv.targetChannels);
    assert |ConvertedSamples(conv, chunks)| != |conv.Converted(SamplesOf(chunks))|;
  }

  lemma PiecesAreLonger(conv: FormatConverter, frames: nat)
    requires conv.sourceRate != conv.targetRate && frames * conv.targetRate % conv.sourceRate != 0
    ensures FramesOut(conv, conv.sourceRate * frames) < conv.sourceRate * FramesOut(conv, frames)
  {
    hide CeilDiv;
    var from, x := conv.sourceRate, frames * conv.targetRate;
    var q := CeilDiv(x, from);
    CeilDivBounds(x, from);
    if q * from == x { DivModIsUnique(x, from, q, 0); }
    assert from * frames * conv.targetRate == x * from;
    CeilDivIsUnique(x * from, from, x);
  }

  /** A mono signal in the converter's input and output channels. */
  function Spread(mono: seq<Sample>, channels: u16): seq<Sample>
  {
    if channels == 2 then MonoToStereo(mono) else mono
  }

  /** On a signal whose channels are equal, the converter is the resampler. */
  lemma ConvertedOfSpread(conv: FormatConverter, mono: seq<Sample>)
    requires MonoOrStereo(conv)
    ensures conv.Converted(Spread(mono, conv.sourceChannels))
         == Spread(Resampled(mono, conv.sourceRate, conv.targetRate), conv.targetChannels)
  {
    hide Resampled, ResampledStereo, MonoToStereo, StereoToMono;
    DownmixOfSpread(mono);
    UpmixCommutesWithResampling(mono, conv.sourceRate, conv.targetRate);
  }

  lemma DownmixOfSpread(mono: seq<Sample>)
    ensures StereoToMono(MonoToStereo(mono)) == mono
  {
    forall i | 0 <= i < |mono|
      ensures StereoToMono(MonoToStereo(mono))[i] == mono[i]
    {
      TruncDivOfMultiple(mono[i], 2);
    }
  }

  lemma SpreadIsInjective(a: seq<Sample>, b: seq<Sample>, channels: u16)
    requires Spread(a, channels) == Spread(b, channels)
    ensures a == b
  {
    if channels == 2 {
      DeinterleaveDuplicated(a);
      DeinterleaveDuplicated(b);
    }
  }

  lemma SpreadConcat(a: seq<Sample>, b: seq<Sample>, channels: u16)
    ensures Spread(a + b, channels) == Spread(a, channels) + Spread(b, channels)
  {
    MonoToStereoConcat(a, b);
    hide MonoToStereo;
  }

  /** Up-sampling: the end of the first of two chunks should lean toward the second, but cannot see it. */
  lemma UpsampledChunksDiffer(conv: FormatConverter, frames: nat)
    requires MonoOrStereo(conv) && 0 < frames && conv.sourceRate < conv.targetRate
    requires frames * conv.targetRate % conv.sourceRate == 0
    ensures !StreamsExactly(conv, frames * conv.sourceChannels)
  {
    hide Resampled, Spread, FormatConverter.Converted, ConvertedSamples, SamplesOf;
    var from, to, sc, tc := conv.sourceRate, conv.targetRate, conv.sourceChannels, conv.targetChannels;
    var a: seq<Sample> := seq(frames, (_: nat) => -32768);
    var b: seq<Sample> := seq(frames, (_: nat) => -32767);
    UpsampledChunkEndsDiffer(a, b, from, to);
    var x := Chunk(Spread(a, sc), 0.0, from, sc, None);
    var y := Chunk(Spread(b, sc), 0.0, from, sc, None);
    TwoChunks(conv, x, y);
    SpreadLength(a, sc);
    SpreadLength(b, sc);
    ConvertedOfSpread(conv, a);
    ConvertedOfSpread(conv, b);
    ConvertedOfSpread(conv, a + b);
    SpreadConcat(a, b, sc);
    SpreadConcat(Resampled(a, from, to), Resampled(b, from, to), tc);
    if ConvertedSamples(conv, [x, y]) == conv.Converted(SamplesOf([x, y])) {
      SpreadIsInjective(Resampled(a, from, to) + Resampled(b, from, to), Resampled(a + b, from, to), tc);
    }
    assert AllOf([x, y], frames * sc);
  }

  lemma SpreadLength(mono: seq<Sample>, channels: u16)
    requires channels == 1 || channels == 2
    ensures |Spread(mono, channels)| == |mono| * channels
  {
  }

  lemma TwoChunks(conv: FormatConverter, x: Chunk, y: Chunk)
    ensures SamplesOf([x, y]) == x.samples + y.samples
    ensures ConvertedSamples(conv, [x, y]) == conv.Converted(x.samples) + conv.Converted(y.samples)
  {
    hide FormatConverter.Converted;
    assert [x, y][..1] == [x] && [x][..0] == [];
    assert SamplesOf([x]) == x.samples;
    assert ConvertedSamples(conv, [x]) == conv.Converted(x.samples);
  }

  /**
   Cutting a stream into chunks of `frames` frames and converting each on its own gives the conversion of the
   stream, for all samples and any number of chunks, exactly when the rates are equal or such a chunk
   down-samples to a whole number of frames.
   */
  lemma ChunkByChunkIffExact(conv: FormatConverter, frames: nat)
    requires MonoOrStereo(conv) && 0 < frames
    ensures StreamsExactly(conv, frames * conv.sourceChannels)
       <==> ChunkExact(frames, conv.sourceRate, conv.targetRate)
  {
    hide FormatConverter.Converted, ConvertedSamples, SamplesOf;
    if ChunkExact(frames, conv.sourceRate, conv.targetRate) {
      WholeFrames(frames, conv.sourceChannels);
      forall chunks | AllOf(chunks, frames * conv.sourceChannels)
        ensures ConvertedSamples(conv, chunks) == conv.Converted(SamplesOf(chunks))
      {
        StreamingEqualsWhole(conv, chunks);
      }
    } else if frames * conv.targetRate % conv.sourceRate != 0 {
      InexactChunksGrow(conv, frames);
    } else {
      UpsampledChunksDiffer(conv, frames);
    }
  }
}
