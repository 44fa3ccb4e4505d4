/** Samples, durations and chunks: the values every part of the pipeline passes along. */
module Audio {

  import opened Arith

  datatype Option<+T> = None | Some(value: T)

  /** A PCM sample, an `i16`. */
  type Sample = x: int | -32768 <= x <= 32767

  type u16 = x: int | 0 <= x < 0x1_0000
  type u32 = x: int | 0 <= x < 0x1_0000_0000

  /** The rate of an open device or of a target format, in Hz. */
  type Rate = r: int | 0 < r < 0x1_0000_0000 witness 16000

  /** A `std::time::Duration` or `Instant`: an exact number of seconds, not rounded to nanoseconds. */
  type Duration = d: real | 0.0 <= d

  type SourceId = string

  function SetOf(sources: seq<SourceId>): set<SourceId>
  {
    set s | s in sources
  }

  /** `Duration::as_millis`. */
  function AsMillis(d: Duration): nat
  {
    (d * 1000.0).Floor
  }

  function FromMillis(ms: nat): Duration
  {
    ms as real / 1000.0
  }

  /** The samples of so long a time: whole frames only. */
  function SampleCount(rate: u32, channels: u16, duration: Duration): nat
  {
    (rate as real * duration).Floor * channels
  }

  /** Rust's float-to-`i16` cast, which saturates. */
  function ToSample(x: real): Sample
  {
    Max(-32768, Min(32767, Trunc(x)))
  }

  datatype Chunk = Chunk(
    samples: seq<Sample>,
    timestamp: Duration,
    sampleRate: u32,
    channels: u16,
    source: Option<SourceId>
  ) {
    function Length(): Duration
    {
      if sampleRate == 0 || channels == 0 then 0.0
      else
        QuotientIsNat(|samples|, channels);
        QuotientIsNat(|samples| / channels, sampleRate);
        (|samples| / channels) as real / sampleRate as real
    }
  }

  /** The samples of a list of chunks, one after the other. */
  function SamplesOf(chunks: seq<Chunk>): seq<Sample>
  {
    if chunks == [] then [] else SamplesOf(chunks[..|chunks| - 1]) + chunks[|chunks| - 1].samples
  }

  /** The chunks of one source, in the order of the list. */
  function FromSource(chunks: seq<Chunk>, s: SourceId): seq<Chunk>
  {
    if chunks == [] then []
    else
      var rest := FromSource(chunks[..|chunks| - 1], s);
      var last := chunks[|chunks| - 1];
      if last.source == Some(s) then rest + [last] else rest
  }

  lemma SamplesOfAppend(chunks: seq<Chunk>, c: Chunk)
    ensures SamplesOf(chunks + [c]) == SamplesOf(chunks) + c.samples
  {
    assert (chunks + [c])[..|chunks|] == chunks;
  }

  lemma {:induction false} UniformSamples(chunks: seq<Chunk>, n: nat)
    requires forall i :: 0 <= i < |chunks| ==> |chunks[i].samples| == n
    ensures |SamplesOf(chunks)| == |chunks| * n
  {
    if chunks != [] {
      UniformSamples(chunks[..|chunks| - 1], n);
      Distribute(|chunks| - 1, 1, n);
    }
  }

  lemma FromSourceAppend(chunks: seq<Chunk>, c: Chunk, s: SourceId)
    ensures FromSource(chunks + [c], s) == FromSource(chunks, s) + if c.source == Some(s) then [c] else []
  {
    assert (chunks + [c])[..|chunks|] == chunks;
  }
}
