/**
 The two clocks of a source: the device time of the samples read (src/pipeline/ring_buffer.rs) and the
 running output timestamp of the converted chunks (src/pipeline/capture.rs); and the merge window
 (src/pipeline/merger.rs) that the output timestamp selects.
 */
module Clock {

  import opened Arith
  import opened Audio
  import opened Resampling
  import opened Convert
  import opened Streaming
  import opened RingBuffer
  import opened Capture
  import opened Merger

  /** When output chunk `k` starts, after `k` chunks of `frames` device frames each. */
  function OutputTime(conv: FormatConverter, frames: nat, k: nat): Duration
  {
    (k * FramesOut(conv, frames)) as real / conv.targetRate as real
  }

  ghost predicate FullBefore(conv: FormatConverter, chunks: seq<Chunk>, frames: nat, k: nat)
    requires k <= |chunks|
  {
    forall i :: 0 <= i < k ==> |chunks[i].samples| == frames * conv.sourceChannels
  }

  lemma FramesOutBounds(conv: FormatConverter, n: nat)
    ensures n * conv.targetRate <= FramesOut(conv, n) * conv.sourceRate < n * conv.targetRate + conv.sourceRate
    ensures FramesOut(conv, n) * conv.sourceRate == n * conv.targetRate <==> n * conv.targetRate % conv.sourceRate == 0
  {
    hide CeilDiv;
    var a, b, x := n * conv.targetRate, conv.sourceRate, FramesOut(conv, n);
    CeilDivBounds(a, b);
    RoundedUpIff(a, b, x);
  }

  lemma RoundedUpIff(a: nat, b: int, x: nat)
    requires 0 < b && a <= x * b < a + b
    ensures x * b == a <==> a % b == 0
  {
    if x * b == a { DivModIsUnique(a, b, x, 0); }
    if a % b == 0 {
      var q := a / b;
      assert a == q * b;
      Distribute(q, 1, b);
      MulCancels(x, q + 1, b);
      if x < q { MulStrictlyMonotone(x, q, b); }
    }
  }

  // ---------- the two clocks ----------

  lemma LengthOfConverted(conv: FormatConverter, c: Chunk, n: nat)
    requires MonoOrStereo(conv) && |c.samples| == FramesOut(conv, n) * conv.targetChannels
    requires c.sampleRate == conv.targetRate && c.channels == conv.targetChannels
    ensures c.Length() == FramesOut(conv, n) as real / conv.targetRate as real
  {
    hide FramesOut;
    DivIsUnique(|c.samples|, c.channels, FramesOut(conv, n));
  }

  lemma {:induction false} UniformLength(chunks: seq<Chunk>, x: nat, rate: Rate)
    requires forall i :: 0 <= i < |chunks| ==> chunks[i].Length() == x as real / rate as real
    ensures TotalLength(chunks) == (|chunks| * x) as real / rate as real
  {
    hide Chunk.Length;
    if chunks != [] {
      var init := chunks[..|chunks| - 1];
      UniformLength(init, x, rate);
      OneMoreLength(|init|, x, rate);
    } else {
      assert 0.0 / rate as real == 0.0;
    }
  }

  lemma OneMoreLength(n: nat, x: nat, rate: Rate)
    ensures (n * x) as real / rate as real + x as real / rate as real == ((n + 1) * x) as real / rate as real
  {
    Distribute(n, 1, x);
    assert ((n + 1) * x) as real == (n * x) as real + x as real;
  }

  /** The output timestamp of chunk `k` counts the frames the converter made of `k` full chunks. */
  lemma OutputClock(conv: FormatConverter, source: Option<SourceId>, chunks: seq<Chunk>, frames: nat, k: nat)
    requires MonoOrStereo(conv) && k < |chunks| && FullBefore(conv, chunks, frames, k)
    ensures Bridged(conv, source, chunks)[k].timestamp == OutputTime(conv, frames, k)
  {
    hide FormatConverter.Converted, Bridged, FramesOut, Chunk.Length, TotalLength;
    var out := Bridged(conv, source, chunks);
    BridgedAt(conv, source, chunks, k);
    forall i | 0 <= i < k
      ensures out[i].Length() == FramesOut(conv, frames) as real / conv.targetRate as real
    {
      BridgedAt(conv, source, chunks, i);
      DivModIsUnique(|chunks[i].samples|, conv.sourceChannels, frames, 0);
      ConvertedLength(conv, chunks[i].samples);
      LengthOfConverted(conv, out[i], frames);
    }
    UniformLength(out[..k], FramesOut(conv, frames), conv.targetRate);
  }

  lemma DeviceClock(conv: FormatConverter, chunks: seq<Chunk>, frames: nat, k: nat)
    requires MonoOrStereo(conv) && k < |chunks| && FullBefore(conv, chunks, frames, k)
    requires Stamped(chunks, conv.sourceRate, conv.sourceChannels)
    ensures chunks[k].timestamp == (k * frames) as real / conv.sourceRate as real
  {
    hide SamplesOf;
    assert StampedAt(chunks, k, conv.sourceRate, conv.sourceChannels);
    UniformSamples(chunks[..k], frames * conv.sourceChannels);
    DeviceTimeOfFrames(k, frames, conv.sourceRate, conv.sourceChannels);
  }

  lemma DeviceTimeOfFrames(k: nat, frames: nat, rate: Rate, channels: u16)
    requires channels == 1 || channels == 2
    ensures DeviceTime(k * (frames * channels), rate, channels) == (k * frames) as real / rate as real
  {
    var a: nat := k * frames;
    if channels == 2 {
      assert k * (frames * 2) == 2 * a;
      HalfOfTwice(a as real, rate as real);
    }
  }

  lemma HalfOfTwice(a: real, rate: real)
    requires 0.0 < rate
    ensures 2.0 * a / rate / 2.0 == a / rate
  {
  }

  /** Quotients compare as their cross products. */
  lemma CompareQuotients(a: int, b: int, c: int, d: int)
    requires 0 < b && 0 < d
    ensures a as real / b as real <= c as real / d as real <==> a * d <= c * b
    ensures a as real / b as real == c as real / d as real <==> a * d == c * b
  {
    var x, y := a as real / b as real, c as real / d as real;
    CrossProduct(a, b, d, x);
    CrossProduct(c, d, b, y);
    var z := b as real * d as real;
    assert 0.0 < z;
    if x <= y { RealMulMonotone(x, y, z); } else { RealMulStrictlyMonotone(y, x, z); }
    if y <= x { RealMulMonotone(y, x, z); } else { RealMulStrictlyMonotone(x, y, z); }
  }

  lemma CrossProduct(a: int, b: int, d: int, x: real)
    requires 0 < b && x == a as real / b as real
    ensures x * (b as real * d as real) == (a * d) as real
  {
    assert x * b as real == a as real;
    assert x * (b as real * d as real) == (x * b as real) * d as real;
    RealProduct(a, d);
  }

  /**
   The output clock is never behind the device clock, leads it by less than one target frame per chunk,
   and agrees with it exactly when a chunk converts to a whole number of frames.
   */
  lemma ClockDrift(conv: FormatConverter, source: Option<SourceId>, chunks: seq<Chunk>, frames: nat, k: nat)
    requires MonoOrStereo(conv) && k < |chunks| && FullBefore(conv, chunks, frames, k)
    requires Stamped(chunks, conv.sourceRate, conv.sourceChannels)
    ensures chunks[k].timestamp <= Bridged(conv, source, chunks)[k].timestamp
    ensures 0 < k ==>
              Bridged(conv, source, chunks)[k].timestamp < chunks[k].timestamp + k as real / conv.targetRate as real
    ensures Bridged(conv, source, chunks)[k].timestamp == chunks[k].timestamp <==>
            k == 0 || frames * conv.targetRate % conv.sourceRate == 0
  {
    hide Bridged, FramesOut, Stamped, FullBefore, MonoOrStereo;
    OutputClock(conv, source, chunks, frames, k);
    DeviceClock(conv, chunks, frames, k);
    DriftBounds(conv, frames, k);
  }

  lemma DriftBounds(conv: FormatConverter, n: nat, k: nat)
    ensures var device, output := (k * n) as real / conv.sourceRate as real, OutputTime(conv, n, k);
            && device <= output
            && (0 < k ==> output < device + k as real / conv.targetRate as real)
            && (output == device <==> k == 0 || n * conv.targetRate % conv.sourceRate == 0)
  {
    hide FramesOut;
    var x, from, to := FramesOut(conv, n), conv.sourceRate, conv.targetRate;
    FramesOutBounds(conv, n);
    CompareQuotients(k * n, from, k * x, to);
    CompareQuotients(k * n, from, k * x - k, to);
    DriftProducts(k, n, x, from, to);
    assert (k * x - k) as real / to as real == (k * x) as real / to as real - k as real / to as real;
  }

  lemma Regroup(k: int, x: int, y: int)
    ensures k * x * y == x * y * k
    ensures k * (x - 1) == k * x - k && (x - 1) * y == x * y - y
  {
  }

  lemma DriftProducts(k: nat, n: nat, x: nat, from: int, to: int)
    requires 0 < from && 0 < to && n * to <= x * from < n * to + from
    ensures k * n * to <= k * x * from
    ensures 0 < k ==> (k * x - k) * from < k * n * to
    ensures k * n * to == k * x * from <==> k == 0 || n * to == x * from
  {
    var p, q := n * to, x * from;
    MulMonotone(p, q, k);
    Regroup(k, n, to);
    Regroup(k, x, from);
    if 0 < k {
      MulStrictlyMonotone(q - from, p, k);
      Regroup(k, x - 1, from);
      if p < q { MulStrictlyMonotone(p, q, k); }
    }
  }

  // ---------- windows ----------

  lemma MillisOfQuotient(a: nat, b: int)
    requires 0 < b
    ensures 0.0 <= a as real / b as real && AsMillis(a as real / b as real) == a * 1000 / b
  {
    RealQuotient(a, b, 0);
    FloorOfQuotient(a * 1000, b);
    assert a as real / b as real * 1000.0 == (a * 1000) as real / b as real;
  }

  /** A chunk that lasts precisely a window stays in the window of its own number. */
  lemma FittingChunkInItsWindow(conv: FormatConverter, frames: nat, ms: nat, k: nat)
    requires 0 < ms && FramesOut(conv, frames) * 1000 == ms * conv.targetRate
    ensures AsMillis(OutputTime(conv, frames, k)) / ms == k
  {
    hide FramesOut, AsMillis;
    var x, to := FramesOut(conv, frames), conv.targetRate;
    MillisOfQuotient(k * x, to);
    assert k * x * 1000 == k * ms * to;
    DivIsUnique(k * ms * to, to, k * ms);
    DivIsUnique(k * ms, ms, k);
  }

  /** One that lasts longer drifts: by chunk `ms * to` at the latest, a window has been skipped. */
  lemma LongChunkSkipsAWindow(conv: FormatConverter, frames: nat, ms: nat)
    requires 0 < ms && ms * conv.targetRate < FramesOut(conv, frames) * 1000
    ensures var k := ms * conv.targetRate; k < AsMillis(OutputTime(conv, frames, k)) / ms
  {
    hide FramesOut, AsMillis;
    var x, to := FramesOut(conv, frames), conv.targetRate;
    var k := ms * to;
    MillisOfQuotient(k * x, to);
    LateProduct(k, x, ms, to, x * 1000 - ms * to);
    AtLeast(k * x * 1000, to, (k + 1) * ms);
    AtLeast(k * x * 1000 / to, ms, k + 1);
  }

  lemma MulAssociates(a: int, b: int, c: int)
    ensures a * b * c == a * (b * c)
  {
  }

  lemma AtLeast(a: int, b: int, q: int)
    requires 0 < b && q * b <= a
    ensures q <= a / b
  {
    DivMonotone(q * b, a, b);
    DivIsUnique(q * b, b, q);
  }

  lemma LateProduct(k: nat, x: nat, ms: nat, to: Rate, e: int)
    requires k == ms * to && e == x * 1000 - ms * to && 1 <= e
    ensures (k + 1) * ms * to <= k * x * 1000
  {
    var a := ms * to;
    assert k * (x * 1000) == k * a + k * e by { Distribute(a, e, k); }
    MulMonotone(1, e, k);
    Distribute(k, 1, a);
    MulAssociates(k, x, 1000);
    MulAssociates(k + 1, ms, to);
  }

  /** One that falls short of a window shares it with the next chunk, which then replaces it in the merger. */
  lemma ShortChunkSharesAWindow(conv: FormatConverter, frames: nat, ms: nat)
    requires 0 < ms && FramesOut(conv, frames) * 1000 < ms * conv.targetRate
    ensures AsMillis(OutputTime(conv, frames, 0)) / ms == 0 && AsMillis(OutputTime(conv, frames, 1)) / ms == 0
  {
    hide FramesOut, AsMillis;
    var x, to := FramesOut(conv, frames), conv.targetRate;
    MillisOfQuotient(0 * x, to);
    MillisOfQuotient(1 * x, to);
    DivIsUnique(0, to, 0);
    DivIsUnique(0, ms, 0);
    var q := x * 1000 / to;
    assert q * to <= x * 1000;
    MulCancels(q, ms, to);
    assert 0 <= q;
    DivIsUnique(q, ms, 0);
  }

  /**
   Every chunk of every length of run falls in the window of its own number if and only if a converted chunk
   lasts precisely a window. This is about the frames a chunk really has, whatever the chunk duration they
   were cut from.
   */
  lemma AlignedIffChunkFillsWindow(conv: FormatConverter, frames: nat, ms: nat)
    requires 0 < ms
    ensures (forall k: nat :: AsMillis(OutputTime(conv, frames, k)) / ms == k)
       <==> FramesOut(conv, frames) * 1000 == ms * conv.targetRate
  {
    hide FramesOut, AsMillis, OutputTime;
    var x, to := FramesOut(conv, frames), conv.targetRate;
    if x * 1000 == ms * to {
      forall k: nat
        ensures AsMillis(OutputTime(conv, frames, k)) / ms == k
      {
        FittingChunkInItsWindow(conv, frames, ms, k);
      }
    } else if ms * to < x * 1000 {
      LongChunkSkipsAWindow(conv, frames, ms);
      var k: nat := ms * to;
      assert AsMillis(OutputTime(conv, frames, k)) / ms != k;
    } else {
      ShortChunkSharesAWindow(conv, frames, ms);
      var k: nat := 1;
      assert AsMillis(OutputTime(conv, frames, k)) / ms != k;
    }
  }

  /** The device frames in a chunk: the duration's frames, a fraction of a frame dropped. */
  function ChunkFrames(rate: Rate, ms: nat): nat
  {
    rate * ms / 1000
  }

  lemma SampleCountInMillis(rate: Rate, channels: u16, ms: nat)
    ensures SampleCount(rate, channels, FromMillis(ms)) == ChunkFrames(rate, ms) * channels
  {
    assert rate as real * FromMillis(ms) == (rate * ms) as real / 1000.0 by { RealProduct(rate, ms); }
    FloorOfQuotient(rate * ms, 1000);
  }

  /**
   For chunks and windows of the same `ms` milliseconds: aligned if and only if the frames a chunk converts to
   are those of `ms` milliseconds, after both roundings, that of the chunk size and that of the conversion.
   */
  lemma SameDurationAlignedIff(conv: FormatConverter, ms: nat)
    requires 0 < ms
    ensures (forall k: nat :: AsMillis(OutputTime(conv, ChunkFrames(conv.sourceRate, ms), k)) / ms == k)
       <==> FramesOut(conv, ChunkFrames(conv.sourceRate, ms)) * 1000 == ms * conv.targetRate
    ensures conv.sourceRate * ms % 1000 == 0 ==>
              (FramesOut(conv, ChunkFrames(conv.sourceRate, ms)) * 1000 == ms * conv.targetRate
          <==> conv.targetRate * ms % 1000 == 0)
  {
    hide FramesOut, AsMillis, OutputTime;
    AlignedIffChunkFillsWindow(conv, ChunkFrames(conv.sourceRate, ms), ms);
    if conv.sourceRate * ms % 1000 == 0 {
      ExactFrames(conv, ms, ChunkFrames(conv.sourceRate, ms));
    }
  }

  /** Frames out per chunk of a whole number of frames, in thousandths: `ms * to`, or rounded up from it. */
  lemma ExactFrames(conv: FormatConverter, ms: nat, frames: nat)
    requires frames * 1000 == conv.sourceRate * ms
    ensures conv.targetRate * ms % 1000 == 0 <==> FramesOut(conv, frames) * 1000 == ms * conv.targetRate
  {
    hide FramesOut;
    var x, from, to := FramesOut(conv, frames), conv.sourceRate, conv.targetRate;
    FramesOutBounds(conv, frames);
    ThousandFrames(frames, x, ms, from, to);
    if to * ms % 1000 == 0 {
      var q := to * ms / 1000;
      assert frames * to * 1000 == (q * from) * 1000 by { assert to * ms == q * 1000; }
      assert frames * to == q * from;
      DivModIsUnique(frames * to, from, q, 0);
    }
  }

  lemma ThousandFrames(frames: nat, x: nat, ms: nat, from: Rate, to: Rate)
    requires frames * 1000 == from * ms && frames * to <= x * from
    ensures frames * to == x * from ==> ms * to == x * 1000
  {
    assert frames * to * 1000 == (ms * to) * from;
    assert x * from * 1000 == (x * 1000) * from;
    if x * 1000 < ms * to { MulStrictlyMonotone(x * 1000, ms * to, from); }
    if ms * to < x * 1000 { MulStrictlyMonotone(ms * to, x * 1000, from); }
  }

  /**
   At 11025 Hz a chunk of 100 ms has 1102 frames, a fraction less than 100 ms. Left at that rate, chunks 0 and 1
   fall in window 0, although nothing is lost in the conversion; converted to 16 kHz the rounding up makes
   1600 frames of it and every chunk has its own window, although the conversion is not exact.
   */
  lemma TruncatedChunks()
    ensures ChunkFrames(11025, 100) == 1102
    ensures var native := FormatConverter(11025, 1, 11025, 1);
            && ExactSamples(native, 1102)
            && AsMillis(OutputTime(native, 1102, 0)) / 100 == 0 && AsMillis(OutputTime(native, 1102, 1)) / 100 == 0
    ensures var up := FormatConverter(11025, 1, 16000, 1);
            && 1102 * up.targetRate % up.sourceRate != 0
            && forall k: nat :: AsMillis(OutputTime(up, 1102, k)) / 100 == k
  {
    hide AsMillis, OutputTime;
    ShortChunkSharesAWindow(FormatConverter(11025, 1, 11025, 1), 1102, 100);
    var up := FormatConverter(11025, 1, 16000, 1);
    assert FramesOut(up, 1102) == 1600;
    AlignedIffChunkFillsWindow(up, 1102, 100);
  }

  /** Chunk `k` of a bridge's output, the odd one of the final drain included, falls in merge window `k`. */
  lemma BridgeIsAligned(cfg: MergerConfig, conv: FormatConverter, source: Option<SourceId>, chunks: seq<Chunk>,
                        frames: nat, k: nat)
    requires cfg.Valid() && MonoOrStereo(conv)
    requires FramesOut(conv, frames) * 1000 == AsMillis(cfg.windowDuration) * conv.targetRate
    requires k < |chunks| && FullBefore(conv, chunks, frames, |chunks| - 1)
    ensures cfg.WindowId(Bridged(conv, source, chunks)[k].timestamp) == k
  {
    hide Bridged, FramesOut, AsMillis, OutputTime, MonoOrStereo;
    OutputClock(conv, source, chunks, frames, k);
    FittingChunkInItsWindow(conv, frames, AsMillis(cfg.windowDuration), k);
  }

  /** The merger's silence, were it ever emitted, would last its window. */
  lemma SilenceFillsTheWindow(cfg: MergerConfig, ms: nat, timestamp: Duration)
    requires cfg.windowDuration == FromMillis(ms) && 0 < cfg.sampleRate
    ensures var c := Silence(cfg, timestamp);
            && |c.samples| == ChunkFrames(cfg.sampleRate, ms) * cfg.channels
            && (forall i :: 0 <= i < |c.samples| ==> c.samples[i] == 0)
            && c.timestamp == timestamp && c.sampleRate == cfg.sampleRate && c.channels == cfg.channels
  {
    hide SampleCount;
    SampleCountInMillis(cfg.sampleRate, cfg.channels, ms);
  }

  /** Whatever the bridge reads, all its chunks fall in the windows of their own numbers. */
  ghost predicate BridgeAligned(cfg: MergerConfig, conv: FormatConverter, source: Option<SourceId>, frames: nat)
    requires cfg.Valid()
  {
    forall chunks, k: nat | k < |chunks| && FullBefore(conv, chunks, frames, |chunks| - 1) ::
      cfg.WindowId(Bridged(conv, source, chunks)[k].timestamp) == k
  }

  /**
   The exact condition for a bridge with `frames` device frames to the chunk, against any merger: a converted
   chunk lasts precisely as many milliseconds as the merger counts in a window.
   */
  lemma BridgeAlignedIff(cfg: MergerConfig, conv: FormatConverter, source: Option<SourceId>, frames: nat)
    requires cfg.Valid() && MonoOrStereo(conv)
    ensures BridgeAligned(cfg, conv, source, frames)
       <==> FramesOut(conv, frames) * 1000 == AsMillis(cfg.windowDuration) * conv.targetRate
  {
    hide Bridged, FramesOut, AsMillis, OutputTime, MonoOrStereo;
    var ms := AsMillis(cfg.windowDuration);
    AlignedIffChunkFillsWindow(conv, frames, ms);
    if FramesOut(conv, frames) * 1000 == ms * conv.targetRate {
      forall chunks, k: nat | k < |chunks| && FullBefore(conv, chunks, frames, |chunks| - 1)
        ensures cfg.WindowId(Bridged(conv, source, chunks)[k].timestamp) == k
      {
        BridgeIsAligned(cfg, conv, source, chunks, frames, k);
      }
    } else {
      var k: nat :| AsMillis(OutputTime(conv, frames, k)) / ms != k;
      var chunks := FullChunks(conv, frames, k + 1);
      OutputClock(conv, source, chunks, frames, k);
    }
  }

  /** A capture of `n` full chunks. */
  lemma FullChunks(conv: FormatConverter, frames: nat, n: nat) returns (chunks: seq<Chunk>)
    ensures |chunks| == n && FullBefore(conv, chunks, frames, n)
  {
    var silence: seq<Sample> := seq(frames * conv.sourceChannels, (_: nat) => 0);
    chunks := seq(n, (_: nat) => Chunk(silence, 0.0, conv.sourceRate, conv.sourceChannels, None));
  }
}
