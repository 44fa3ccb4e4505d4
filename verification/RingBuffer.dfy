/**
 The ring buffer between the audio callback and the capture bridge, and the chunk-wise reader on top
 of it (src/pipeline/ring_buffer.rs, with the pushes of src/source/device.rs).
 */
module RingBuffer {

  import opened Arith
  import opened Audio

  /** The ring after a push: the prefix of `data` that fits is taken in, the rest, the newest samples, dropped. */
  function Pushed(contents: seq<Sample>, capacity: nat, data: seq<Sample>): (after: seq<Sample>)
    requires |contents| <= capacity
    ensures contents <= after && |after| <= capacity
  {
    contents + data[..Min(|data|, capacity - |contents|)]
  }

  /**
   What the reader finds when it looks at the ring. `upcoming` is the callback's schedule: one slice for each
   of the reader's coming operations on the ring, pushed just before it; an empty slice where the callback
   does not run, and none at all once it has stopped.
   */
  function Arrived(contents: seq<Sample>, capacity: nat, upcoming: seq<seq<Sample>>): (found: seq<Sample>)
    requires |contents| <= capacity
    ensures contents <= found && |found| <= capacity
  {
    if upcoming == [] then contents else Pushed(contents, capacity, upcoming[0])
  }

  function Later(upcoming: seq<seq<Sample>>): seq<seq<Sample>>
  {
    if upcoming == [] then [] else upcoming[1..]
  }

  /** What popping until the ring is found empty yields, the callback pushing all the while. */
  function Rest(contents: seq<Sample>, capacity: nat, upcoming: seq<seq<Sample>>): seq<Sample>
    requires |contents| <= capacity
    decreases |upcoming|, |contents|
  {
    var found := Arrived(contents, capacity, upcoming);
    if found == [] then [] else [found[0]] + Rest(found[1..], capacity, Later(upcoming))
  }

  /** The two halves of a `HeapRb<i16>`: a bounded FIFO that the callback fills and the bridge empties. */
  class Ring {
    const capacity: nat
    var contents: seq<Sample>
    /** The callback's schedule, for every interleaving with the reader: see `Arrived`. */
    var upcoming: seq<seq<Sample>>
    /** Every sample the ring ever took in, and every sample ever popped, in order. */
    ghost var accepted: seq<Sample>
    ghost var popped: seq<Sample>

    ghost predicate Valid()
      reads this
    {
      |contents| <= capacity && accepted == popped + contents
    }

    constructor (capacity: nat, upcoming: seq<seq<Sample>>)
      ensures Valid() && this.capacity == capacity && this.upcoming == upcoming && accepted == [] && popped == []
    {
      this.capacity, this.upcoming := capacity, upcoming;
      contents, accepted, popped := [], [], [];
    }

    method PushSlice(data: seq<Sample>) returns (n: nat)
      requires Valid()
      modifies this`contents, this`accepted
      ensures Valid() && n <= |data| && accepted == old(accepted) + data[..n]
      ensures contents == Pushed(old(contents), capacity, data)
      ensures n == |data| || |contents| == capacity
    {
      n := Min(|data|, capacity - |contents|);
      contents := contents + data[..n];
      accepted := accepted + data[..n];
    }

    /** The callback, if it runs at this point. */
    method Callback()
      requires Valid()
      modifies this`contents, this`accepted, this`upcoming
      ensures Valid() && old(accepted) <= accepted
      ensures contents == Arrived(old(contents), capacity, old(upcoming)) && upcoming == Later(old(upcoming))
    {
      if upcoming != [] {
        var n := PushSlice(upcoming[0]);
        upcoming := upcoming[1..];
      }
    }

    method OccupiedLen() returns (n: nat)
      requires Valid()
      modifies this`contents, this`accepted, this`upcoming
      ensures Valid() && old(accepted) <= accepted && n == |contents|
      ensures contents == Arrived(old(contents), capacity, old(upcoming)) && upcoming == Later(old(upcoming))
    {
      Callback();
      n := |contents|;
    }

    method TryPop() returns (s: Option<Sample>)
      requires Valid()
      modifies this
      ensures Valid() && old(accepted) <= accepted && upcoming == Later(old(upcoming))
      ensures s.None? ==> contents == Arrived(old(contents), capacity, old(upcoming)) == [] && popped == old(popped)
      ensures s.Some? ==> Arrived(old(contents), capacity, old(upcoming)) == [s.value] + contents
      ensures s.Some? ==> popped == old(popped) + [s.value]
    {
      Callback();
      if contents == [] {
        s := None;
      } else {
        s := Some(contents[0]);
        popped := popped + [contents[0]];
        contents := contents[1..];
      }
    }
  }

  // ---------- what a full ring drops ----------

  /** The `capacity` newest samples: what is left when the oldest are dropped. */
  function Newest(s: seq<Sample>, capacity: nat): seq<Sample>
  {
    s[Max(0, |s| - capacity)..]
  }

  /**
   "If it fills, oldest audio is dropped": a push into a ring of `n` samples keeps the newest ones, whatever
   the samples, exactly when everything fits (or the ring holds nothing anyway).
   */
  lemma KeepsNewestIff(n: nat, m: nat, capacity: nat)
    requires n <= capacity
    ensures (forall c: seq<Sample>, d: seq<Sample> | |c| == n && |d| == m ::
               Pushed(c, capacity, d) == Newest(c + d, capacity))
       <==> n + m <= capacity || capacity == 0
  {
    if n + m <= capacity || capacity == 0 {
      forall c: seq<Sample>, d: seq<Sample> | |c| == n && |d| == m
        ensures Pushed(c, capacity, d) == Newest(c + d, capacity)
      {
      }
    } else {
      var s: seq<Sample> := seq(n + m, (i: nat) => if i == 0 then 1 else 0);
      var c, d := s[..n], s[n..];
      assert c + d == s;
      assert Pushed(c, capacity, d)[0] == s[0] && Newest(s, capacity)[0] == s[n + m - capacity];
    }
  }

  /** A full ring of two drops the newcomer and keeps both old samples. */
  lemma FullRingDropsTheNewest()
    ensures Pushed([1, 2], 2, [3]) == [1, 2] && Newest([1, 2] + [3], 2) == [2, 3]
  {
  }

  /** The time, by the device's clock, at which sample number `n` was captured. */
  function DeviceTime(n: nat, rate: Rate, channels: u16): Duration
    requires 0 < channels
  {
    n as real / rate as real / channels as real
  }

  /** The chunk size is zero exactly when the device has no channels or the duration is too short for a frame. */
  lemma ChunkSizeIsZeroIff(rate: Rate, channels: u16, chunkDuration: Duration)
    ensures SampleCount(rate, channels, chunkDuration) == 0 <==> channels == 0 || rate as real * chunkDuration < 1.0
  {
    var frames := (rate as real * chunkDuration).Floor;
    if 0 < channels && 0 < frames {
      MulMonotone(1, frames, channels);
    }
  }

  /** How many samples one pass of `drain`'s loop leaves, and `n` passes, while the callback is quiet. */
  function AfterPass(len: nat, size: nat): nat
  {
    if len < size then len else len - size
  }

  function AfterPasses(len: nat, size: nat, n: nat): nat
  {
    if n == 0 then len else AfterPass(AfterPasses(len, size, n - 1), size)
  }

  /**
   `drain` ends, finding less than a chunk after some number of passes, exactly when the device has channels
   and a chunk lasts for at least one frame.
   */
  lemma {:induction false} DrainEndsIff(rate: Rate, channels: u16, chunkDuration: Duration, len: nat)
    ensures (exists n: nat :: AfterPasses(len, SampleCount(rate, channels, chunkDuration), n)
                              < SampleCount(rate, channels, chunkDuration))
       <==> 0 < channels && 1.0 <= rate as real * chunkDuration
  {
    hide SampleCount, AfterPasses;
    ChunkSizeIsZeroIff(rate, channels, chunkDuration);
    var size := SampleCount(rate, channels, chunkDuration);
    if 0 < size {
      var n := PassesUntilDone(len, size, 0);
    }
  }

  lemma {:induction false} PassesUntilDone(len: nat, size: nat, n: nat) returns (done: nat)
    requires 0 < size
    ensures AfterPasses(len, size, done) < size
    decreases AfterPasses(len, size, n)
  {
    if AfterPasses(len, size, n) < size {
      done := n;
    } else {
      done := PassesUntilDone(len, size, n + 1);
    }
  }

  /** `chunks` cut `s` into pieces of `size` samples, the last one possibly shorter but never empty. */
  ghost predicate Cuts(chunks: seq<Chunk>, s: seq<Sample>, size: nat)
  {
    && SamplesOf(chunks) == s
    && (forall i :: 0 <= i < |chunks| - 1 ==> |chunks[i].samples| == size)
    && (chunks != [] ==> 0 < |chunks[|chunks| - 1].samples| <= size)
  }

  /** Every chunk carries the device format and the device time of its first sample. */
  ghost predicate Stamped(chunks: seq<Chunk>, rate: Rate, channels: u16)
    requires 0 < channels
  {
    forall i :: 0 <= i < |chunks| ==> StampedAt(chunks, i, rate, channels)
  }

  ghost predicate StampedAt(chunks: seq<Chunk>, i: nat, rate: Rate, channels: u16)
    requires 0 < channels && i < |chunks|
  {
    && chunks[i].timestamp == DeviceTime(|SamplesOf(chunks[..i])|, rate, channels)
    && chunks[i].sampleRate == rate && chunks[i].channels == channels && chunks[i].source == None
  }

  lemma StampedAppend(chunks: seq<Chunk>, c: Chunk, rate: Rate, channels: u16)
    requires 0 < channels && Stamped(chunks, rate, channels)
    requires c.timestamp == DeviceTime(|SamplesOf(chunks)|, rate, channels)
    requires c.sampleRate == rate && c.channels == channels && c.source == None
    ensures Stamped(chunks + [c], rate, channels)
  {
    hide DeviceTime, SamplesOf;
    var more := chunks + [c];
    forall i | 0 <= i < |more|
      ensures StampedAt(more, i, rate, channels)
    {
      assert more[..i] == chunks[..i];
      if i < |chunks| {
        assert StampedAt(chunks, i, rate, channels);
      } else {
        assert chunks[..i] == chunks;
      }
    }
  }

  class AudioBuffer {
    const ring: Ring
    const sampleRate: Rate
    const channels: u16
    const chunkSize: nat
    var samplesRead: nat
    /** Every chunk this reader ever returned. */
    ghost var delivered: seq<Chunk>

    ghost predicate Valid()
      reads this, ring
    {
      && 0 < channels
      && ring.Valid()
      && ring.popped == SamplesOf(delivered)
      && samplesRead == |ring.popped|
      && Stamped(delivered, sampleRate, channels)
    }

    constructor (ring: Ring, sampleRate: Rate, channels: u16, chunkDuration: Duration)
      requires ring.Valid() && ring.popped == [] && 0 < channels
      ensures Valid() && delivered == [] && this.ring == ring
      ensures this.sampleRate == sampleRate && this.channels == channels
      ensures chunkSize == SampleCount(sampleRate, channels, chunkDuration)
    {
      this.ring, this.sampleRate, this.channels := ring, sampleRate, channels;
      chunkSize := SampleCount(sampleRate, channels, chunkDuration);
      samplesRead, delivered := 0, [];
    }

    method HasChunk() returns (has: bool)
      requires Valid()
      modifies ring
      ensures Valid() && old(ring.accepted) <= ring.accepted
      ensures ring.contents == Arrived(old(ring.contents), ring.capacity, old(ring.upcoming))
      ensures ring.upcoming == Later(old(ring.upcoming))
      ensures has <==> chunkSize <= |ring.contents|
    {
      hide SamplesOf, Stamped, Arrived;
      var n := ring.OccupiedLen();
      has := n >= chunkSize;
    }

    /**
     Returns the oldest `chunkSize` samples under the device's clock, unless it finds fewer, or a chunk is
     no samples at all.
     */
    method TryReadChunk() returns (r: Option<Chunk>)
      requires Valid()
      modifies this, ring
      ensures Valid() && old(ring.accepted) <= ring.accepted
      ensures 0 < chunkSize <= |old(ring.contents)| ==> r.Some?
      ensures r.None? ==> (chunkSize == 0 || |ring.contents| < chunkSize) && delivered == old(delivered)
      ensures r.Some? ==> 0 < chunkSize == |r.value.samples| && delivered == old(delivered) + [r.value]
      ensures old(ring.upcoming) != [] ==> |ring.upcoming| < |old(ring.upcoming)|
      ensures old(ring.upcoming) == [] ==>
                ring.upcoming == [] && old(ring.contents) == (if r.Some? then r.value.samples else []) + ring.contents
    {
      hide SamplesOf, Stamped, DeviceTime;
      var n := ring.OccupiedLen();
      if n < chunkSize {
        return None;
      }
      var samples := Pop(ring, chunkSize);
      if samples == [] {
        return None;
      }
      var c := Stamp(samples);
      r := Some(c);
    }

    /** Pops `n` samples. */
    static method Pop(ring: Ring, n: nat) returns (samples: seq<Sample>)
      requires ring.Valid() && n <= |ring.contents|
      modifies ring
      ensures ring.Valid() && old(ring.accepted) <= ring.accepted
      ensures |samples| == n && ring.popped == old(ring.popped) + samples
      ensures |ring.upcoming| <= |old(ring.upcoming)|
      ensures old(ring.upcoming) == [] ==> old(ring.contents) == samples + ring.contents
    {
      hide Arrived, Later;
      samples := [];
      for i := 0 to n
        invariant ring.Valid() && old(ring.accepted) <= ring.accepted
        invariant |samples| == i && ring.popped == old(ring.popped) + samples
        invariant n - i <= |ring.contents| && |ring.upcoming| <= |old(ring.upcoming)|
        invariant old(ring.upcoming) == [] ==> old(ring.contents) == samples + ring.contents
      {
        QuietArrival(ring.contents, ring.capacity, ring.upcoming);
        ghost var popped := samples;
        var s := ring.TryPop();
        if s.None? {
          break;
        }
        samples := samples + [s.value];
        if old(ring.upcoming) == [] {
          PoppedOne(popped, s.value, ring.contents);
        }
      }
    }

    /** Pops until the ring is found empty, however much arrives meanwhile. */
    static method PopAll(ring: Ring) returns (samples: seq<Sample>)
      requires ring.Valid()
      modifies ring
      ensures ring.Valid() && old(ring.accepted) <= ring.accepted
      ensures samples == Rest(old(ring.contents), ring.capacity, old(ring.upcoming)) && ring.contents == []
      ensures ring.popped == old(ring.popped) + samples && |ring.upcoming| <= |old(ring.upcoming)|
    {
      hide Arrived, Rest;
      samples := [];
      while true
        invariant ring.Valid() && old(ring.accepted) <= ring.accepted
        invariant ring.popped == old(ring.popped) + samples && |ring.upcoming| <= |old(ring.upcoming)|
        invariant samples + Rest(ring.contents, ring.capacity, ring.upcoming)
               == Rest(old(ring.contents), ring.capacity, old(ring.upcoming))
        decreases |ring.upcoming|, |ring.contents|
      {
        QuietArrival(ring.contents, ring.capacity, ring.upcoming);
        RestUnfolds(ring.contents, ring.capacity, ring.upcoming);
        ghost var found := Arrived(ring.contents, ring.capacity, ring.upcoming);
        var s := ring.TryPop();
        if s.None? {
          assert found == [];
          assert samples + [] == samples;
          break;
        }
        assert found[1..] == ring.contents;
        PoppedOne(samples, s.value, Rest(ring.contents, ring.capacity, ring.upcoming));
        samples := samples + [s.value];
      }
    }

    /** Wraps popped samples in a chunk and advances the sample clock. */
    method Stamp(samples: seq<Sample>) returns (c: Chunk)
      requires 0 < channels && ring.Valid() && ring.popped == SamplesOf(delivered) + samples
      requires samplesRead == |SamplesOf(delivered)| && Stamped(delivered, sampleRate, channels)
      modifies this
      ensures Valid() && delivered == old(delivered) + [c] && c.samples == samples
    {
      hide Stamped, SamplesOf;
      var timestamp := DeviceTime(samplesRead, sampleRate, channels);
      samplesRead := samplesRead + |samples|;
      c := Chunk(samples, timestamp, sampleRate, channels, None);
      SamplesOfAppend(delivered, c);
      StampedAppend(delivered, c, sampleRate, channels);
      delivered := delivered + [c];
    }

    /**
     One pass of the loop of `drain`: a check and a read. With a chunk size of zero the check always succeeds
     and the read never yields anything, so the loop does not end.
     */
    method DrainPass() returns (again: bool, r: Option<Chunk>)
      requires Valid()
      modifies this, ring
      ensures Valid() && old(ring.accepted) <= ring.accepted
      ensures chunkSize == 0 ==> again && r.None?
      ensures 0 < chunkSize ==> (again <==> r.Some?)
      ensures !again ==> |ring.contents| < chunkSize
      ensures r.None? ==> delivered == old(delivered)
      ensures r.Some? ==> |r.value.samples| == chunkSize && delivered == old(delivered) + [r.value]
      ensures old(ring.upcoming) != [] ==> |ring.upcoming| < |old(ring.upcoming)|
      ensures old(ring.upcoming) == [] ==>
                && ring.upcoming == []
                && old(ring.contents) == (if r.Some? then r.value.samples else []) + ring.contents
                && (again <==> chunkSize <= |old(ring.contents)|)
                && |ring.contents| == AfterPass(|old(ring.contents)|, chunkSize)
    {
      hide SamplesOf, Stamped, DeviceTime;
      again := HasChunk();
      r := None;
      if again {
        r := TryReadChunk();
      }
    }

    /**
     Empties the ring into chunks while the callback goes on pushing. Every chunk but the last is full; the
     last is whatever popping until the ring was found empty gave, and with the callback quiet it is no longer
     than a chunk. When the ring was last looked at, everything it had ever taken in had been delivered.

     The loop ends because every pass pops a whole chunk; a chunk size of zero is excluded, see `DrainEndsIff`.
     */
    method Drain() returns (chunks: seq<Chunk>)
      requires Valid() && 0 < chunkSize
      modifies this, ring
      ensures Valid() && ring.contents == [] && old(ring.accepted) <= ring.accepted == SamplesOf(delivered)
      ensures |ring.upcoming| <= |old(ring.upcoming)|
      ensures delivered == old(delivered) + chunks
      ensures forall i :: 0 <= i < |chunks| - 1 ==> |chunks[i].samples| == chunkSize
      ensures chunks != [] ==> 0 < |chunks[|chunks| - 1].samples|
      ensures old(ring.upcoming) == [] ==> Cuts(chunks, old(ring.contents), chunkSize)
    {
      hide SamplesOf, Stamped, DeviceTime;
      chunks := DrainChunks();
      var rest := DrainRest();
      if rest.Some? {
        SamplesOfAppend(chunks, rest.value);
        chunks := chunks + [rest.value];
      }
    }

    /** The loop of `drain`: whole chunks, for as long as there is one. */
    method DrainChunks() returns (chunks: seq<Chunk>)
      requires Valid() && 0 < chunkSize
      modifies this, ring
      ensures Valid() && |ring.contents| < chunkSize && old(ring.accepted) <= ring.accepted
      ensures delivered == old(delivered) + chunks && |ring.upcoming| <= |old(ring.upcoming)|
      ensures forall i :: 0 <= i < |chunks| ==> |chunks[i].samples| == chunkSize
      ensures old(ring.upcoming) == [] ==>
                ring.upcoming == [] && SamplesOf(chunks) + ring.contents == old(ring.contents)
    {
      hide SamplesOf, Stamped, DeviceTime;
      chunks := [];
      NoSamples();
      var again := true;
      while again
        invariant Valid() && old(ring.accepted) <= ring.accepted && delivered == old(delivered) + chunks
        invariant |ring.upcoming| <= |old(ring.upcoming)|
        invariant forall i :: 0 <= i < |chunks| ==> |chunks[i].samples| == chunkSize
        invariant old(ring.upcoming) == [] ==>
                    ring.upcoming == [] && SamplesOf(chunks) + ring.contents == old(ring.contents)
        invariant !again ==> |ring.contents| < chunkSize
        decreases again, |ring.upcoming|, |ring.contents|
      {
        ghost var before := SamplesOf(chunks);
        var r;
        again, r := DrainPass();
        if r.Some? {
          SamplesOfAppend(chunks, r.value);
          Regrouped(before, r.value.samples, ring.contents);
          chunks := chunks + [r.value];
        }
      }
    }

    /** The end of `drain`: whatever is left, in one chunk. */
    method DrainRest() returns (rest: Option<Chunk>)
      requires Valid()
      modifies this, ring
      ensures Valid() && ring.contents == [] && old(ring.accepted) <= ring.accepted
      ensures |ring.upcoming| <= |old(ring.upcoming)|
      ensures rest.None? ==> delivered == old(delivered)
      ensures rest.Some? ==> delivered == old(delivered) + [rest.value] && 0 < |rest.value.samples|
      ensures var found := Arrived(old(ring.contents), ring.capacity, old(ring.upcoming));
              if found == [] then rest.None?
              else rest.Some? && rest.value.samples == Rest(found, ring.capacity, Later(old(ring.upcoming)))
      ensures old(ring.upcoming) == [] ==> old(ring.contents) == if rest.Some? then rest.value.samples else []
    {
      hide SamplesOf, Stamped, DeviceTime, Rest, Arrived;
      QuietArrival(ring.contents, ring.capacity, ring.upcoming);
      rest := None;
      var remaining := ring.OccupiedLen();
      if 0 < remaining {
        QuietRest(ring.contents, ring.capacity);
        RestIsMore(ring.contents, ring.capacity, ring.upcoming);
        var samples := PopAll(ring);
        if samples != [] {
          var c := Stamp(samples);
          rest := Some(c);
        }
      }
    }

    static lemma NoSamples()
      ensures SamplesOf([]) == []
    {
    }
  }

  lemma Regrouped(a: seq<Sample>, b: seq<Sample>, c: seq<Sample>)
    ensures a + (b + c) == a + b + c
  {
  }

  lemma RestUnfolds(contents: seq<Sample>, capacity: nat, upcoming: seq<seq<Sample>>)
    requires |contents| <= capacity
    ensures var found := Arrived(contents, capacity, upcoming);
            Rest(contents, capacity, upcoming)
            == if found == [] then [] else [found[0]] + Rest(found[1..], capacity, Later(upcoming))
  {
    hide Arrived;
  }

  lemma PoppedOne(samples: seq<Sample>, x: Sample, rest: seq<Sample>)
    ensures samples + ([x] + rest) == samples + [x] + rest
  {
  }

  lemma QuietArrival(contents: seq<Sample>, capacity: nat, upcoming: seq<seq<Sample>>)
    requires |contents| <= capacity
    ensures |contents| <= |Arrived(contents, capacity, upcoming)| && |Later(upcoming)| <= |upcoming|
    ensures upcoming == [] ==> Arrived(contents, capacity, upcoming) == contents && Later(upcoming) == []
    ensures upcoming != [] ==> |Later(upcoming)| < |upcoming|
  {
  }

  /** With the callback quiet the rest is what was there. */
  lemma {:induction false} QuietRest(contents: seq<Sample>, capacity: nat)
    requires |contents| <= capacity
    ensures Rest(contents, capacity, []) == contents
  {
    if contents != [] {
      QuietRest(contents[1..], capacity);
    }
  }

  lemma RestIsMore(contents: seq<Sample>, capacity: nat, upcoming: seq<seq<Sample>>)
    requires |contents| <= capacity && contents != []
    ensures Rest(contents, capacity, upcoming) != []
  {
    assert Arrived(contents, capacity, upcoming) != [];
  }

  /** A callback that pushes one sample before each of the next `n` operations. */
  function Busy(n: nat): seq<seq<Sample>>
  {
    seq(n, (_: nat) => [0])
  }

  lemma {:induction false} BusyRest(found: seq<Sample>, capacity: nat, n: nat)
    requires |found| <= capacity && 0 < capacity
    ensures n <= |Rest(found, capacity, Busy(n))|
    decreases n
  {
    if 0 < n {
      var more := Arrived(found, capacity, Busy(n));
      assert Busy(n)[1..] == Busy(n - 1);
      assert more != [];
      BusyRest(more[1..], capacity, n - 1);
    }
  }

  /** The last chunk of a drain that found these samples left has at most `size`, whatever the callback does. */
  ghost predicate RestAtMost(found: seq<Sample>, capacity: nat, size: nat)
    requires |found| <= capacity
  {
    forall upcoming :: |Rest(found, capacity, upcoming)| <= size
  }

  /**
   No size bounds the last chunk of a drain, unless the ring holds nothing at all: for as long as a callback comes
   between any two pops, popping goes on.
   */
  lemma RestIsBoundedIff(found: seq<Sample>, capacity: nat, size: nat)
    requires |found| <= capacity
    ensures RestAtMost(found, capacity, size) <==> capacity == 0
  {
    if capacity == 0 {
      forall upcoming
        ensures |Rest(found, capacity, upcoming)| <= size
      {
        EmptyRest(upcoming);
      }
    } else {
      BusyRest(found, capacity, size + 1);
      assert size < |Rest(found, capacity, Busy(size + 1))|;
    }
  }

  lemma EmptyRest(upcoming: seq<seq<Sample>>)
    ensures Rest([], 0, upcoming) == []
  {
    assert Arrived([], 0, upcoming) == [];
  }

  /** One callback during the final pops is enough to make the last chunk longer than a chunk. */
  lemma RestCanExceedAChunk(size: nat, capacity: nat)
    requires 1 < size < capacity
    ensures var data: seq<Sample> := seq(size, (_: nat) => 0);
            |[0]| < size && Rest([0], capacity, [data]) == [0] + data && size < |Rest([0], capacity, [data])|
  {
    var data: seq<Sample> := seq(size, (_: nat) => 0);
    assert Arrived([0], capacity, [data]) == [0] + data;
    assert ([0] + data)[1..] == data;
    QuietRest(data, capacity);
  }
}
