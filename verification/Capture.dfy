/**
 The capture bridge (src/pipeline/capture.rs): it reads chunks from the ring buffer, converts each on
 its own, stamps it with a running output timestamp and sends it to the router.
 */
module Capture {

  import opened Arith
  import opened Audio
  import opened Convert
  import opened Streaming
  import opened RingBuffer

  function TotalLength(chunks: seq<Chunk>): Duration
  {
    if chunks == [] then 0.0 else TotalLength(chunks[..|chunks| - 1]) + chunks[|chunks| - 1].Length()
  }

  /** What the bridge makes of the device chunks it has read so far. */
  function Bridged(conv: FormatConverter, source: Option<SourceId>, chunks: seq<Chunk>): (out: seq<Chunk>)
    ensures |out| == |chunks|
  {
    if chunks == [] then []
    else
      var before := Bridged(conv, source, chunks[..|chunks| - 1]);
      var samples := conv.Converted(chunks[|chunks| - 1].samples);
      before + [Chunk(samples, TotalLength(before), conv.targetRate, conv.targetChannels, source)]
  }

  class CaptureBridge {
    const buffer: AudioBuffer
    const converter: FormatConverter
    const sourceId: Option<SourceId>
    var outputTimestamp: Duration
    /** Every chunk made by `ConvertChunk`, sent or not, and whether the final drain has begun. */
    ghost var produced: seq<Chunk>
    ghost var draining: bool

    ghost predicate Valid()
      reads this, buffer, buffer.ring
    {
      && buffer.Valid()
      && converter.sourceRate == buffer.sampleRate && converter.sourceChannels == buffer.channels
      && produced == Bridged(converter, sourceId, buffer.delivered)
      && outputTimestamp == TotalLength(produced)
      && (buffer.chunkSize == 0 ==> buffer.delivered == [])
      && (forall i :: 0 <= i < |buffer.delivered| - (if draining then 1 else 0) ==>
            |buffer.delivered[i].samples| == buffer.chunkSize)
    }

    constructor (buffer: AudioBuffer, converter: FormatConverter, sourceId: Option<SourceId>)
      requires buffer.Valid() && buffer.delivered == []
      requires converter.sourceRate == buffer.sampleRate && converter.sourceChannels == buffer.channels
      ensures Valid() && produced == [] && !draining
      ensures this.buffer == buffer && this.converter == converter && this.sourceId == sourceId
    {
      this.buffer, this.converter, this.sourceId := buffer, converter, sourceId;
      outputTimestamp, produced, draining := 0.0, [], false;
    }

    /** Converts one device chunk and advances the output timestamp by what came out. */
    method ConvertChunk(deviceChunk: Chunk, ghost before: seq<Chunk>) returns (chunk: Chunk)
      requires produced == Bridged(converter, sourceId, before) && outputTimestamp == TotalLength(produced)
      modifies this`outputTimestamp, this`produced
      ensures produced == old(produced) + [chunk]
      ensures produced == Bridged(converter, sourceId, before + [deviceChunk])
      ensures outputTimestamp == TotalLength(produced)
    {
      hide FormatConverter.Converted, Chunk.Length;
      var samples := converter.Convert(deviceChunk.samples);
      chunk := Chunk(samples, outputTimestamp, converter.targetRate, converter.targetChannels, sourceId);
      outputTimestamp := outputTimestamp + chunk.Length();
      BridgedAppend(converter, sourceId, before, deviceChunk);
      TotalLengthAppend(produced, chunk);
      produced := produced + [chunk];
    }

    method ProcessNextChunk() returns (chunk: Option<Chunk>)
      requires Valid() && !draining
      modifies this`outputTimestamp, this`produced, buffer, buffer.ring
      ensures Valid() && old(buffer.ring.accepted) <= buffer.ring.accepted
      ensures 0 < buffer.chunkSize <= |old(buffer.ring.contents)| ==> chunk.Some?
      ensures chunk.Some? ==> 0 < buffer.chunkSize && produced == old(produced) + [chunk.value]
      ensures chunk.None? ==> produced == old(produced)
      ensures chunk.None? ==> buffer.chunkSize == 0 || |buffer.ring.contents| < buffer.chunkSize
      ensures old(buffer.ring.upcoming) != [] ==> |buffer.ring.upcoming| < |old(buffer.ring.upcoming)|
      ensures old(buffer.ring.upcoming) == [] ==>
                buffer.ring.upcoming == [] && (chunk.Some? ==> |buffer.ring.contents| < |old(buffer.ring.contents)|)
    {
      hide Bridged, TotalLength, Stamped, SamplesOf, Arrived;
      QuietArrival(buffer.ring.contents, buffer.ring.capacity, buffer.ring.upcoming);
      ghost var before := buffer.delivered;
      var has := buffer.HasChunk();
      if !has {
        return None;
      }
      var deviceChunk := buffer.TryReadChunk();
      if deviceChunk.None? {
        return None;
      }
      var c := ConvertChunk(deviceChunk.value, before);
      chunk := Some(c);
    }

    /**
     The shutdown drain, with the callback still running: a failed send drops the chunk and goes on with the
     next one.
     */
    method DrainRemaining(sentSoFar: seq<Chunk>, sendLimit: nat) returns (sent: seq<Chunk>)
      requires Valid() && !draining && 0 < buffer.chunkSize
      requires sentSoFar == produced && |sentSoFar| <= sendLimit
      modifies this, buffer, buffer.ring
      ensures Valid() && draining && old(buffer.ring.accepted) <= buffer.ring.accepted
      ensures SamplesOf(buffer.delivered) == buffer.ring.accepted && old(produced) <= produced
      ensures sent == produced[..Min(sendLimit, |produced|)] && |buffer.ring.upcoming| <= |old(buffer.ring.upcoming)|
    {
      hide Bridged, TotalLength, Stamped, SamplesOf;
      ghost var before := buffer.delivered;
      var chunks := buffer.Drain();
      draining := true;
      sent := sentSoFar;
      assert before + chunks[..0] == before;
      for i := 0 to |chunks|
        invariant buffer.Valid() && old(buffer.ring.accepted) <= buffer.ring.accepted
        invariant buffer.delivered == before + chunks && draining
        invariant SamplesOf(buffer.delivered) == buffer.ring.accepted && old(produced) <= produced
        invariant |buffer.ring.upcoming| <= |old(buffer.ring.upcoming)|
        invariant produced == Bridged(converter, sourceId, before + chunks[..i])
        invariant outputTimestamp == TotalLength(produced)
        invariant sent == produced[..Min(sendLimit, |produced|)]
      {
        assert before + chunks[..i] + [chunks[i]] == before + chunks[..i + 1];
        var chunk := ConvertChunk(chunks[i], before + chunks[..i]);
        if |sent| < sendLimit {
          sent := sent + [chunk];
        }
      }
      assert before + chunks[..|chunks|] == buffer.delivered;
    }

    /**
     The bridge's run loop, for every schedule of the callback (the ring's `upcoming`), which may run between
     any two of the bridge's operations on the ring, those of the final drain included. `ticks` is how often
     the poll timer fires while the session runs; the router closes the channel after `sendLimit` sends.

     Whatever happens, what was sent is the bridged stream in order. A bridge that was not cut off has read
     every sample accepted until it last looked at the ring, and with exact chunks its output is the
     conversion of that whole stream.

     `captured` chunks come from the capture loop, the rest from the drain. Each tick lets the callback run, and at the
     end of the last one less than a chunk of what was accepted by then, `seen` samples, is still unread. A send that
     fails in the capture loop ends the bridge there and then.
     */
    method Run(ticks: nat, sendLimit: nat)
      returns (sent: seq<Chunk>, finished: bool, ghost captured: nat, ghost seen: nat)
      requires Valid() && !draining && produced == [] && 0 < buffer.chunkSize
      modifies this, buffer, buffer.ring
      ensures Valid() && captured <= |produced| && (finished <==> draining)
      ensures old(buffer.ring.accepted) <= buffer.ring.accepted
      ensures sent == produced[..Min(sendLimit, |produced|)]
      ensures finished ==> SamplesOf(buffer.delivered) == buffer.ring.accepted
      ensures !finished ==> captured == |produced| == sendLimit + 1
      ensures finished ==> captured <= Min(sendLimit, |produced|) && (ticks == 0 ==> captured == 0)
      ensures finished && 0 < ticks ==> |old(buffer.ring.accepted)| <= seen < (captured + 1) * buffer.chunkSize
      ensures finished ==> buffer.ring.upcoming == [] || |buffer.ring.upcoming| + ticks <= |old(buffer.ring.upcoming)|
      ensures finished && MonoOrStereo(converter) && ExactSamples(converter, buffer.chunkSize) ==>
                SamplesOf(produced) == converter.Converted(buffer.ring.accepted)
    {
      hide Bridged, TotalLength, Stamped, SamplesOf, ExactSamples, FormatConverter.Converted;
      sent, captured, seen := [], 0, 0;
      for tick := 0 to ticks
        invariant Valid() && !draining && old(buffer.ring.accepted) <= buffer.ring.accepted
        invariant sent == produced && |sent| <= sendLimit && (tick == 0 ==> sent == [])
        invariant 0 < tick ==> |old(buffer.ring.accepted)| <= seen < (|sent| + 1) * buffer.chunkSize
        invariant buffer.ring.upcoming == [] || |buffer.ring.upcoming| + tick <= |old(buffer.ring.upcoming)|
      {
        ghost var upcoming := |buffer.ring.upcoming|;
        while true
          invariant Valid() && !draining && old(buffer.ring.accepted) <= buffer.ring.accepted
          invariant sent == produced && |sent| <= sendLimit && |buffer.ring.upcoming| <= upcoming
          decreases |buffer.ring.upcoming|, |buffer.ring.contents|
        {
          var chunk := ProcessNextChunk();
          if chunk.None? {
            break;
          }
          if |sent| == sendLimit {
            return sent, false, |produced|, 0;
          }
          sent := sent + [chunk.value];
        }
        seen := |buffer.ring.accepted|;
        UnreadIsShort();
      }
      captured := |produced|;
      sent := DrainRemaining(sent, sendLimit);
      finished := true;
      if MonoOrStereo(converter) && ExactSamples(converter, buffer.chunkSize) {
        ConvertedDelivered();
      }
    }

    /** Less than a chunk left in the ring is less than a chunk unread. */
    lemma UnreadIsShort()
      requires Valid() && !draining && |buffer.ring.contents| < buffer.chunkSize
      ensures |buffer.ring.accepted| < (|produced| + 1) * buffer.chunkSize
    {
      hide Bridged, TotalLength, Stamped, SamplesOf;
      UniformSamples(buffer.delivered, buffer.chunkSize);
      Distribute(|produced|, 1, buffer.chunkSize);
    }

    /** With exact chunks, a bridge's output is the conversion of all the samples it has read. */
    lemma ConvertedDelivered()
      requires Valid() && MonoOrStereo(converter) && ExactSamples(converter, buffer.chunkSize)
      ensures SamplesOf(produced) == converter.Converted(buffer.ring.popped)
      ensures buffer.ring.accepted == buffer.ring.popped + buffer.ring.contents
    {
      hide Bridged, TotalLength, Stamped, SamplesOf, ExactSamples, FormatConverter.Converted;
      BridgedSamples(converter, sourceId, buffer.delivered);
      StreamingEqualsWhole(converter, buffer.delivered);
    }

    /**
     The device stream is dropped only with the session, so the callback outlives the drain. What the ring
     takes in from then on stays there: it is accepted, and no sink ever gets it.
     */
    method CallbackAfterRun(data: seq<Sample>) returns (n: nat)
      requires Valid() && draining
      modifies buffer.ring
      ensures Valid() && produced == old(produced) && buffer.delivered == old(buffer.delivered)
      ensures n <= |data| && buffer.ring.accepted == old(buffer.ring.accepted) + data[..n]
      ensures buffer.ring.contents == old(buffer.ring.contents) + data[..n]
      ensures SamplesOf(buffer.delivered) == old(buffer.ring.popped)
    {
      hide Bridged, TotalLength, Stamped, SamplesOf;
      n := buffer.ring.PushSlice(data);
      assert buffer.ring.popped == old(buffer.ring.popped);
    }
  }

  lemma BridgedAppend(conv: FormatConverter, source: Option<SourceId>, chunks: seq<Chunk>, c: Chunk)
    ensures Bridged(conv, source, chunks + [c])
         == Bridged(conv, source, chunks)
          + [Chunk(conv.Converted(c.samples), TotalLength(Bridged(conv, source, chunks)),
                   conv.targetRate, conv.targetChannels, source)]
  {
    hide FormatConverter.Converted, TotalLength;
    assert (chunks + [c])[..|chunks|] == chunks;
  }

  lemma TotalLengthAppend(chunks: seq<Chunk>, c: Chunk)
    ensures TotalLength(chunks + [c]) == TotalLength(chunks) + c.Length()
  {
    hide Chunk.Length;
    assert (chunks + [c])[..|chunks|] == chunks;
  }

  lemma {:induction false} BridgedSamples(conv: FormatConverter, source: Option<SourceId>, chunks: seq<Chunk>)
    ensures SamplesOf(Bridged(conv, source, chunks)) == ConvertedSamples(conv, chunks)
  {
    hide FormatConverter.Converted, TotalLength;
    if chunks != [] {
      var init, last := chunks[..|chunks| - 1], chunks[|chunks| - 1];
      BridgedSamples(conv, source, init);
      var before := Bridged(conv, source, init);
      SamplesOfAppend(before,
                      Chunk(conv.Converted(last.samples), TotalLength(before), conv.targetRate, conv.targetChannels,
                          source));
    }
  }

  lemma {:induction false} BridgedAt(conv: FormatConverter, source: Option<SourceId>, chunks: seq<Chunk>, k: nat)
    requires k < |chunks|
    ensures var out := Bridged(conv, source, chunks);
            && out[k].samples == conv.Converted(chunks[k].samples)
            && out[k].sampleRate == conv.targetRate && out[k].channels == conv.targetChannels && out[k].source == source
            && out[k].timestamp == TotalLength(Bridged(conv, source, chunks[..k]))
            && Bridged(conv, source, chunks[..k]) == out[..k]
  {
    hide FormatConverter.Converted, TotalLength;
    var init := chunks[..|chunks| - 1];
    if k < |init| {
      BridgedAt(conv, source, init, k);
      assert init[..k] == chunks[..k];
    } else {
      assert chunks[..k] == init;
    }
  }

  /** Chunks follow each other without gap or overlap: each starts where the one before it ends. */
  lemma OutputIsContiguous(conv: FormatConverter, source: Option<SourceId>, chunks: seq<Chunk>, k: nat)
    requires k + 1 < |chunks|
    ensures var out := Bridged(conv, source, chunks); out[k + 1].timestamp == out[k].timestamp + out[k].Length()
    ensures Bridged(conv, source, chunks)[0].timestamp == 0.0
  {
    hide FormatConverter.Converted, Bridged, Chunk.Length;
    BridgedAt(conv, source, chunks, k);
    BridgedAt(conv, source, chunks, k + 1);
    BridgedAt(conv, source, chunks, 0);
    var out := Bridged(conv, source, chunks);
    assert out[..k + 1] == out[..k] + [out[k]];
    TotalLengthAppend(out[..k], out[k]);
    assert out[..0] == [];
  }
}
