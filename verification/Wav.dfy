/**
 The WAV file sink (src/sink/file.rs): a header with a placeholder size, samples appended, and the two
 size fields patched at the end; and an independent reader of the format, from the section "Waveform
 Audio File Format (WAVE)" of "Multimedia Programming Interface and Data Specifications 1.0" (IBM and
 Microsoft, 1991).

 Fields are computed with the wrap-around of `u32` and `u16`.
 */
module WavFile {

  import opened Arith
  import opened Audio

  type byte = x: int | 0 <= x < 256

  const RIFF: seq<byte> := [0x52, 0x49, 0x46, 0x46]
  const WAVE: seq<byte> := [0x57, 0x41, 0x56, 0x45]
  const FMT: seq<byte> := [0x66, 0x6D, 0x74, 0x20]
  const DATA: seq<byte> := [0x64, 0x61, 0x74, 0x61]

  function Le16(x: u16): (b: seq<byte>)
    ensures |b| == 2
  {
    [x % 0x100, x / 0x100]
  }

  function Le32(x: u32): (b: seq<byte>)
    ensures |b| == 4
  {
    [x % 0x100, x / 0x100 % 0x100, x / 0x1_0000 % 0x100, x / 0x100_0000]
  }

  function Wrap16(x: nat): u16
  {
    x % 0x1_0000
  }

  function WrapU32(x: nat): u32
  {
    x % 0x1_0000_0000
  }

  function ByteRate(rate: u32, channels: u16): u32
  {
    WrapU32(rate * channels * 2)
  }

  function BlockAlign(channels: u16): u16
  {
    Wrap16(channels * 2)
  }

  function Header(rate: u32, channels: u16, dataSize: u32): (h: seq<byte>)
    ensures |h| == 44
  {
    RIFF + Le32(WrapU32(36 + dataSize)) + WAVE
    + FMT + Le32(16) + Le16(1) + Le16(channels) + Le32(rate)
    + Le32(ByteRate(rate, channels)) + Le16(BlockAlign(channels)) + Le16(16)
    + DATA + Le32(dataSize)
  }

  /** The 16 bits of a sample as an unsigned number. */
  function Bits(s: Sample): u16
  {
    if s < 0 then s + 0x1_0000 else s
  }

  function SampleBytes(s: seq<Sample>): seq<byte>
  {
    seq(2 * |s|, (i: nat) requires i < 2 * |s| => Le16(Bits(s[i / 2]))[i % 2])
  }

  /** `(samples_written * 2) as u32`. */
  function DataSize(samples: nat): u32
  {
    WrapU32(2 * samples)
  }

  /** Writing at a position: overwrites what is there and extends the file beyond. */
  function Overwritten(file: seq<byte>, pos: nat, bytes: seq<byte>): seq<byte>
    requires pos <= |file|
  {
    file[..pos] + bytes + if pos + |bytes| <= |file| then file[pos + |bytes|..] else []
  }

  // ---------- the code ----------

  class FileSink {
    /** `writer` is open; `file` is the file's contents, whole even before a flush. */
    var open: bool
    var file: seq<byte>
    var position: nat
    var samplesWritten: nat
    var sampleRate: u32
    var channels: u16
    /** The samples written since the file was created, and the counter's value at that moment. */
    ghost var written: seq<Sample>
    ghost var before: nat

    ghost predicate Valid()
      reads this
    {
      && samplesWritten == before + |written|
      && (open ==> file == Header(sampleRate, channels, 0) + SampleBytes(written) && position == |file|)
    }

    constructor Wav()
      ensures Valid() && !open && samplesWritten == 0 && written == [] && before == 0
    {
      open, file, position, samplesWritten, sampleRate, channels := false, [], 0, 0, 0, 0;
      written, before := [], 0;
    }

    method WriteAll(bytes: seq<byte>)
      requires position <= |file|
      modifies this`file, this`position
      ensures file == Overwritten(old(file), old(position), bytes)
      ensures position == old(position) + |bytes| <= |file|
    {
      file := file[..position] + bytes + if position + |bytes| <= |file| then file[position + |bytes|..] else [];
      position := position + |bytes|;
    }

    /** At the end of the file, writing appends. */
    method Append(bytes: seq<byte>)
      requires position == |file|
      modifies this`file, this`position
      ensures file == old(file) + bytes && position == |file|
    {
      WriteAll(bytes);
    }

    method WriteWavHeader(rate: u32, ch: u16, dataSize: u32)
      requires file == [] && position == 0
      modifies this`file, this`position
      ensures file == Header(rate, ch, dataSize) && position == |file|
    {
      hide *;
      HeaderInOrder(rate, ch, dataSize);
      Append(RIFF);
      assert file == RIFF;
      Append(Le32(WrapU32(36 + dataSize)));
      Append(WAVE);
      Append(FMT);
      Append(Le32(16));
      Append(Le16(1));
      Append(Le16(ch));
      Append(Le32(rate));
      Append(Le32(ByteRate(rate, ch)));
      Append(Le16(BlockAlign(ch)));
      Append(Le16(16));
      Append(DATA);
      Append(Le32(dataSize));
    }

    method UpdateWavHeader(dataSize: u32)
      requires open && Valid()
      modifies this`file, this`position
      ensures file == Header(sampleRate, channels, dataSize) + SampleBytes(written)
      ensures position == |file|
    {
      hide Header, SampleBytes, Overwritten, Le32, WrapU32;
      OverwrittenLength(file, 4, Le32(WrapU32(36 + dataSize)));
      OverwrittenLength(Overwritten(file, 4, Le32(WrapU32(36 + dataSize))), 40, Le32(dataSize));
      PatchGivesFinalHeader(sampleRate, channels, dataSize, SampleBytes(written));
      position := 4;
      WriteAll(Le32(WrapU32(36 + dataSize)));
      position := 40;
      WriteAll(Le32(dataSize));
      position := |file|;
    }

    /** The first write creates the file, whose header keeps that write's format. */
    method WriteSamples(samples: seq<Sample>, rate: u32, ch: u16)
      requires Valid()
      modifies this
      ensures Valid() && open
      ensures old(open) ==> written == old(written) + samples && before == old(before)
                            && sampleRate == old(sampleRate) && channels == old(channels)
      ensures !old(open) ==> written == samples && before == old(samplesWritten) && sampleRate == rate && channels == ch
    {
      hide Header, Le16;
      if !open {
        file, position := [], 0;
        WriteWavHeader(rate, ch, 0);
        open, sampleRate, channels := true, rate, ch;
        written, before := [], samplesWritten;
        NoSampleBytes(Header(rate, ch, 0));
      }
      ghost var start, header := written, Header(sampleRate, channels, 0);
      for i := 0 to |samples|
        invariant open && samplesWritten == before + |start| && written == start
        invariant file == header + SampleBytes(start + samples[..i]) && position == |file|
        invariant sampleRate == if old(open) then old(sampleRate) else rate
        invariant channels == if old(open) then old(channels) else ch
        invariant before == if old(open) then old(before) else old(samplesWritten)
        invariant start == if old(open) then old(written) else []
        invariant header == Header(sampleRate, channels, 0)
      {
        SampleBytesAppend(header, start + samples[..i], samples[i]);
        assert start + samples[..i] + [samples[i]] == start + samples[..i + 1];
        Append(Le16(Bits(samples[i])));
      }
      assert samples[..|samples|] == samples;
      samplesWritten := samplesWritten + |samples|;
      written := written + samples;
    }

    /** With a file open, patches the sizes and closes it; without one, there is nothing to do. */
    method Finalize()
      requires Valid()
      modifies this
      ensures Valid() && !open && samplesWritten == old(samplesWritten)
      ensures written == old(written) && before == old(before)
      ensures !old(open) ==> file == old(file)
      ensures old(open) ==>
                file == Header(old(sampleRate), old(channels), DataSize(before + |written|)) + SampleBytes(written)
    {
      hide Header, SampleBytes, DataSize;
      var dataSize := DataSize(samplesWritten);
      if open {
        UpdateWavHeader(dataSize);
      }
      open := false;
    }

    /** A sink's life in the pipeline: a write for every chunk, then one stop. Without chunks there is no file. */
    method Record(chunks: seq<Chunk>)
      requires Valid() && !open
      modifies this
      ensures Valid() && !open
      ensures chunks == [] ==> file == old(file)
      ensures chunks != [] ==> file == FileOf(chunks, old(samplesWritten))
      ensures chunks != [] ==> Tagged(file)
      ensures samplesWritten == old(samplesWritten) + |SamplesOf(chunks)|
    {
      hide Tagged, Header, SampleBytes, DataSize, SamplesOf, Valid;
      NothingWritten();
      if chunks != [] {
        FileIsTagged(chunks, samplesWritten);
      }
      for i := 0 to |chunks|
        invariant Valid() && (open <==> 0 < i)
        invariant i == 0 ==> file == old(file) && samplesWritten == old(samplesWritten)
        invariant 0 < i ==> before == old(samplesWritten) && written == SamplesOf(chunks[..i])
                            && sampleRate == chunks[0].sampleRate && channels == chunks[0].channels
      {
        SamplesOfAppend(chunks[..i], chunks[i]);
        assert chunks[..i] + [chunks[i]] == chunks[..i + 1];
        assert i == 0 ==> [] + chunks[i].samples == chunks[i].samples;
        WriteSamples(chunks[i].samples, chunks[i].sampleRate, chunks[i].channels);
      }
      assert chunks[..|chunks|] == chunks;
      Counted();
      Finalize();
    }

    lemma Counted()
      requires Valid()
      ensures samplesWritten == before + |written|
    {
    }

    static lemma NothingWritten()
      ensures SamplesOf([]) == []
    {
    }
  }

  /** What a recording of these chunks leaves on disk when the sink had counted `before` samples already. */
  function FileOf(chunks: seq<Chunk>, before: nat): seq<byte>
    requires chunks != []
  {
    var samples := SamplesOf(chunks);
    Header(chunks[0].sampleRate, chunks[0].channels, DataSize(before + |samples|)) + SampleBytes(samples)
  }

  /** The file is tagged as a little-endian RIFF file of WAVE data, with its two chunks where the code puts them. */
  predicate Tagged(file: seq<byte>)
  {
    && 44 <= |file|
    && file[0..4] == [0x52, 0x49, 0x46, 0x46]    // RIFF
    && file[8..12] == [0x57, 0x41, 0x56, 0x45]   // WAVE
    && file[12..16] == [0x66, 0x6D, 0x74, 0x20]  // fmt and a space
    && file[36..40] == [0x64, 0x61, 0x74, 0x61]  // data
  }

  lemma FileIsTagged(chunks: seq<Chunk>, before: nat)
    requires chunks != []
    ensures Tagged(FileOf(chunks, before))
  {
    hide Header, SampleBytes, Layout, DataSize;
    var samples := SamplesOf(chunks);
    var f := FileOf(chunks, before);
    HeaderLayout(chunks[0].sampleRate, chunks[0].channels, DataSize(before + |samples|), SampleBytes(samples));
    LayoutIsTagged(f, chunks[0].sampleRate, chunks[0].channels, DataSize(before + |samples|), SampleBytes(samples));
  }

  lemma LayoutIsTagged(f: seq<byte>, rate: u32, channels: u16, dataSize: u32, body: seq<byte>)
    requires Layout(f, WrapU32(36 + dataSize), rate, channels, dataSize, body)
    ensures Tagged(f)
  {
    hide Le32, FmtBody, WrapU32;
    assert f[0..4] == f[..4];
  }

  /** A whole file, byte by byte: one stereo frame at 16 kHz. */
  lemma OneFrameFile()
    ensures FileOf([Chunk([0x1234, -2], 0.0, 16000, 2, None)], 0)
         == [0x52, 0x49, 0x46, 0x46, 40, 0, 0, 0, 0x57, 0x41, 0x56, 0x45]
            + [0x66, 0x6D, 0x74, 0x20, 16, 0, 0, 0, 1, 0, 2, 0, 0x80, 0x3E, 0, 0, 0x00, 0xFA, 0, 0, 4, 0, 16, 0]
            + [0x64, 0x61, 0x74, 0x61, 4, 0, 0, 0]
            + [0x34, 0x12, 0xFE, 0xFF]
  {
    hide Header, SampleBytes, Le16, Le32, Bits;
    var c := Chunk([0x1234, -2], 0.0, 16000, 2, None);
    assert [c][..0] == [];
    assert SamplesOf([c]) == [0x1234, -2];
    TwoSampleBytes(0x1234, -2);
    OneFrameFields();
    OneFrameHeader();
    assert SampleBytes([0x1234, -2]) == [0x34, 0x12, 0xFE, 0xFF];
  }

  lemma OneFrameHeader()
    ensures Header(16000, 2, 4)
         == [0x52, 0x49, 0x46, 0x46, 40, 0, 0, 0, 0x57, 0x41, 0x56, 0x45]
            + [0x66, 0x6D, 0x74, 0x20, 16, 0, 0, 0, 1, 0, 2, 0, 0x80, 0x3E, 0, 0, 0x00, 0xFA, 0, 0, 4, 0, 16, 0]
            + [0x64, 0x61, 0x74, 0x61, 4, 0, 0, 0]
  {
    hide Le16, Le32, WrapU32, ByteRate, BlockAlign;
    OneFrameFields();
    OneFrameParts();
    ThreeParts(16000, 2, 4);
  }

  lemma ThreeParts(rate: u32, channels: u16, dataSize: u32)
    ensures Header(rate, channels, dataSize)
         == (RIFF + Le32(WrapU32(36 + dataSize)) + WAVE) + (FMT + Le32(16) + FmtBody(rate, channels))
            + (DATA + Le32(dataSize))
  {
    hide Le16, Le32, WrapU32, ByteRate, BlockAlign;
  }

  lemma OneFrameParts()
    ensures RIFF + Le32(WrapU32(36 + 4)) + WAVE == [0x52, 0x49, 0x46, 0x46, 40, 0, 0, 0, 0x57, 0x41, 0x56, 0x45]
    ensures FMT + Le32(16) + FmtBody(16000, 2)
         == [0x66, 0x6D, 0x74, 0x20, 16, 0, 0, 0, 1, 0, 2, 0, 0x80, 0x3E, 0, 0, 0x00, 0xFA, 0, 0, 4, 0, 16, 0]
    ensures DATA + Le32(4) == [0x64, 0x61, 0x74, 0x61, 4, 0, 0, 0]
  {
    hide Le16, Le32, WrapU32, ByteRate, BlockAlign;
    OneFrameFields();
  }

  lemma OneFrameFields()
    ensures Le32(WrapU32(36 + 4)) == [40, 0, 0, 0] && Le32(16) == [16, 0, 0, 0]
    ensures Le16(1) == [1, 0] && Le16(2) == [2, 0]
    ensures Le32(16000) == [0x80, 0x3E, 0, 0] && Le32(ByteRate(16000, 2)) == [0x00, 0xFA, 0, 0]
    ensures Le16(BlockAlign(2)) == [4, 0] && Le16(16) == [16, 0] && Le32(4) == [4, 0, 0, 0]
    ensures Le16(Bits(0x1234)) == [0x34, 0x12] && Le16(Bits(-2)) == [0xFE, 0xFF] && DataSize(2) == 4
  {
  }

  lemma TwoSampleBytes(x: Sample, y: Sample)
    ensures SampleBytes([x, y]) == Le16(Bits(x)) + Le16(Bits(y))
  {
  }

  lemma HeaderInOrder(rate: u32, channels: u16, dataSize: u32)
    ensures Header(rate, channels, dataSize)
         == RIFF + Le32(WrapU32(36 + dataSize)) + WAVE + FMT + Le32(16) + Le16(1) + Le16(channels) + Le32(rate)
            + Le32(ByteRate(rate, channels)) + Le16(BlockAlign(channels)) + Le16(16) + DATA + Le32(dataSize)
  {
    hide Le16, Le32, WrapU32, ByteRate, BlockAlign;
  }

  lemma OverwrittenLength(file: seq<byte>, pos: nat, bytes: seq<byte>)
    requires pos + |bytes| <= |file|
    ensures |Overwritten(file, pos, bytes)| == |file|
  {
  }

  lemma NoSampleBytes(header: seq<byte>)
    ensures header == header + SampleBytes([])
  {
  }

  lemma SampleBytesAppend(header: seq<byte>, s: seq<Sample>, x: Sample)
    ensures header + SampleBytes(s) + Le16(Bits(x)) == header + SampleBytes(s + [x])
  {
    hide Le16, Bits;
    forall i | 0 <= i < 2 * |s| + 2
      ensures (SampleBytes(s) + Le16(Bits(x)))[i] == SampleBytes(s + [x])[i]
    {
    }
    assert SampleBytes(s) + Le16(Bits(x)) == SampleBytes(s + [x]);
    assert header + SampleBytes(s) + Le16(Bits(x)) == header + (SampleBytes(s) + Le16(Bits(x)));
  }

  /** Everything in the header before the file size, between the two sizes, and nothing after. */
  function HeaderMiddle(rate: u32, channels: u16): (m: seq<byte>)
    ensures |m| == 32
  {
    WAVE + FMT + Le32(16) + Le16(1) + Le16(channels) + Le32(rate)
    + Le32(ByteRate(rate, channels)) + Le16(BlockAlign(channels)) + Le16(16) + DATA
  }

  lemma HeaderParts(rate: u32, channels: u16, dataSize: u32)
    ensures Header(rate, channels, dataSize)
         == RIFF + Le32(WrapU32(36 + dataSize)) + HeaderMiddle(rate, channels) + Le32(dataSize)
  {
    hide Le16, Le32, WrapU32, ByteRate, BlockAlign;
  }

  /** The placeholder header, patched in two places, is the header written once with the final size. */
  lemma PatchGivesFinalHeader(rate: u32, channels: u16, dataSize: u32, body: seq<byte>)
    ensures |Header(rate, channels, 0)| == 44
    ensures var patched := Overwritten(Header(rate, channels, 0) + body, 4, Le32(WrapU32(36 + dataSize)));
            && |patched| == 44 + |body|
            && Overwritten(patched, 40, Le32(dataSize)) == Header(rate, channels, dataSize) + body
  {
    hide Le16, Le32, WrapU32, ByteRate, BlockAlign, HeaderMiddle, Header;
    HeaderParts(rate, channels, 0);
    HeaderParts(rate, channels, dataSize);
    var m := HeaderMiddle(rate, channels);
    var file := Header(rate, channels, 0) + body;
    var patched := Overwritten(file, 4, Le32(WrapU32(36 + dataSize)));
    assert patched == RIFF + Le32(WrapU32(36 + dataSize)) + m + Le32(0) + body;
    assert Overwritten(patched, 40, Le32(dataSize)) == RIFF + Le32(WrapU32(36 + dataSize)) + m + Le32(dataSize) + body;
  }

  // ---------- an independent reader ----------

  /** A tag as the format writes it: the codes of its characters. */
  function Ascii(tag: string): seq<byte>
    requires forall i :: 0 <= i < |tag| ==> tag[i] as int < 128
  {
    seq(|tag|, (i: nat) requires i < |tag| => tag[i] as int)
  }

  lemma TagsAreAscii()
    ensures RIFF == Ascii("RIFF") && WAVE == Ascii("WAVE") && FMT == Ascii("fmt ") && DATA == Ascii("data")
  {
  }

  datatype Recording = Recording(rate: u32, channels: u16, samples: seq<Sample>)

  function U16At(file: seq<byte>, at: nat): u16
    requires at + 2 <= |file|
  {
    file[at] as int + 0x100 * file[at + 1] as int
  }

  function U32At(file: seq<byte>, at: nat): u32
    requires at + 4 <= |file|
  {
    file[at] as int + 0x100 * file[at + 1] as int + 0x1_0000 * file[at + 2] as int + 0x100_0000 * file[at + 3] as int
  }

  /** The body of the first chunk with this id from `at` on: chunks are padded to an even length. */
  function FindChunk(file: seq<byte>, at: nat, id: seq<byte>): Option<seq<byte>>
    decreases |file| - at
  {
    if |file| < at + 8 then None
    else
      var size := U32At(file, at + 4);
      if |file| < at + 8 + size then None
      else if file[at..at + 4] == id then Some(file[at + 8..at + 8 + size])
      else if |file| < at + 8 + size + size % 2 then None
      else FindChunk(file, at + 8 + size + size % 2, id)
  }

  function SampleOf(bits: u16): Sample
  {
    if bits < 0x8000 then bits else bits - 0x1_0000
  }

  function SamplesIn(body: seq<byte>): seq<Sample>
  {
    seq(|body| / 2, (i: nat) requires i < |body| / 2 => SampleOf(U16At(body, 2 * i)))
  }

  /** Reads 16-bit PCM, checking every redundant field. */
  function Decode(file: seq<byte>): Option<Recording>
  {
    if |file| < 12 || file[..4] != Ascii("RIFF") || U32At(file, 4) + 8 != |file| || file[8..12] != Ascii("WAVE")
    then None
    else
      match (FindChunk(file, 12, Ascii("fmt ")), FindChunk(file, 12, Ascii("data")))
      case (Some(fmt), Some(data)) =>
        if |fmt| < 16 || U16At(fmt, 0) != 1 || U16At(fmt, 14) != 16 then None
        else
          var channels, rate := U16At(fmt, 2), U32At(fmt, 4);
          if U32At(fmt, 8) != rate * channels * 2 || U16At(fmt, 12) != channels * 2 || |data| % 2 != 0 then None
          else Some(Recording(rate, channels, SamplesIn(data)))
      case _ => None
  }

  // ---------- what is written is read back ----------

  lemma Le16RoundTrip(x: u16, file: seq<byte>, at: nat)
    requires at + 2 <= |file| && file[at..at + 2] == Le16(x)
    ensures U16At(file, at) == x
  {
    assert file[at] == file[at..at + 2][0] && file[at + 1] == file[at..at + 2][1];
  }

  lemma Le32RoundTrip(x: u32, file: seq<byte>, at: nat)
    requires at + 4 <= |file| && file[at..at + 4] == Le32(x)
    ensures U32At(file, at) == x
  {
    BytesAt(file, at, Le32(x));
    Le32Value(x);
    hide Le32;
  }

  lemma BytesAt(file: seq<byte>, at: nat, b: seq<byte>)
    requires at + 4 <= |file| && |b| == 4 && file[at..at + 4] == b
    ensures file[at] == b[0] && file[at + 1] == b[1] && file[at + 2] == b[2] && file[at + 3] == b[3]
  {
  }

  lemma Le32Value(x: u32)
    ensures var b := Le32(x); b[0] as int + 0x100 * b[1] as int + 0x1_0000 * b[2] as int + 0x100_0000 * b[3] as int == x
  {
    var y := x / 0x100;
    var z := y / 0x100;
    assert x / 0x1_0000 == z && x / 0x100_0000 == z / 0x100;
  }

  lemma SamplesRoundTrip(s: seq<Sample>)
    ensures SamplesIn(SampleBytes(s)) == s
  {
    var b := SampleBytes(s);
    forall i | 0 <= i < |s|
      ensures SampleOf(U16At(b, 2 * i)) == s[i]
    {
      assert b[2 * i] == Le16(Bits(s[i]))[0] && b[2 * i + 1] == Le16(Bits(s[i]))[1];
    }
  }

  /** Where each field of a file is. */
  predicate Layout(f: seq<byte>, riffSize: u32, rate: u32, channels: u16, dataSize: u32, body: seq<byte>)
  {
    && |f| == 44 + |body| && f[..4] == RIFF && f[4..8] == Le32(riffSize) && f[8..12] == WAVE
    && f[12..16] == FMT && f[16..20] == Le32(16) && f[20..36] == FmtBody(rate, channels)
    && f[36..40] == DATA && f[40..44] == Le32(dataSize) && f[44..] == body
  }

  function FmtBody(rate: u32, channels: u16): seq<byte>
  {
    Le16(1) + Le16(channels) + Le32(rate) + Le32(ByteRate(rate, channels)) + Le16(BlockAlign(channels)) + Le16(16)
  }

  lemma HeaderLayout(rate: u32, channels: u16, dataSize: u32, body: seq<byte>)
    ensures Layout(Header(rate, channels, dataSize) + body, WrapU32(36 + dataSize), rate, channels, dataSize, body)
  {
    hide Le16, Le32, WrapU32, ByteRate, BlockAlign;
    var f := Header(rate, channels, dataSize) + body;
    assert f[..4] == RIFF && f[4..8] == Le32(WrapU32(36 + dataSize)) && f[8..12] == WAVE;
    assert f[12..16] == FMT && f[16..20] == Le32(16);
    assert f[20..36] == FmtBody(rate, channels);
    assert f[36..40] == DATA && f[40..44] == Le32(dataSize) && f[44..] == body;
  }

  lemma FmtLayout(rate: u32, channels: u16, fmt: seq<byte>)
    requires fmt == FmtBody(rate, channels)
    ensures |fmt| == 16 && U16At(fmt, 0) == 1 && U16At(fmt, 2) == channels && U32At(fmt, 4) == rate
    ensures U32At(fmt, 8) == ByteRate(rate, channels) && U16At(fmt, 12) == BlockAlign(channels) && U16At(fmt, 14) == 16
  {
    hide Le16, Le32, ByteRate, BlockAlign, U16At, U32At;
    Le16RoundTrip(1, fmt, 0);
    Le16RoundTrip(channels, fmt, 2);
    Le32RoundTrip(rate, fmt, 4);
    Le32RoundTrip(ByteRate(rate, channels), fmt, 8);
    Le16RoundTrip(BlockAlign(channels), fmt, 12);
    Le16RoundTrip(16, fmt, 14);
  }

  /** The reader finds the two chunks where the sink put them. */
  lemma FindsChunks(rate: u32, channels: u16, dataSize: u32, body: seq<byte>)
    requires dataSize == |body|
    ensures var f := Header(rate, channels, dataSize) + body;
            && |f| == 44 + |body|
            && FindChunk(f, 12, FMT) == Some(f[20..36])
            && FindChunk(f, 12, DATA) == Some(body)
  {
    hide Header, Le16, Le32, U32At, WrapU32, FmtBody;
    var f := Header(rate, channels, dataSize) + body;
    HeaderLayout(rate, channels, dataSize, body);
    Le32RoundTrip(16, f, 16);
    Le32RoundTrip(dataSize, f, 40);
    assert f[12..16] != DATA by { assert f[12..16][0] != DATA[0]; }
    assert f[44..44 + |body|] == body;
    assert FindChunk(f, 36, DATA) == Some(body);
  }

  /** The length of a recording's file, and what its RIFF size field says. */
  lemma RiffSizeAt(rate: u32, channels: u16, dataSize: u32, samples: seq<Sample>)
    ensures var f := Header(rate, channels, dataSize) + SampleBytes(samples);
            |f| == 44 + 2 * |samples| && U32At(f, 4) == WrapU32(36 + dataSize)
  {
    hide Header, Le16, Le32, U32At, FmtBody, WrapU32, SampleBytes;
    SampleBytesLength(samples);
    HeaderLayout(rate, channels, dataSize, SampleBytes(samples));
    Le32RoundTrip(WrapU32(36 + dataSize), Header(rate, channels, dataSize) + SampleBytes(samples), 4);
  }

  /** The RIFF size is the file length less eight exactly as long as the file stays under 4 GiB. */
  lemma RiffSizeIff(rate: u32, channels: u16, samples: seq<Sample>)
    ensures var f := Header(rate, channels, DataSize(|samples|)) + SampleBytes(samples);
            && |f| == 44 + 2 * |samples|
            && (U32At(f, 4) == |f| - 8 <==> 36 + 2 * |samples| < 0x1_0000_0000)
  {
    hide Header, U32At, SampleBytes;
    RiffSizeAt(rate, channels, DataSize(|samples|), samples);
  }

  /** A file whose length is not what it says is rejected. */
  lemma DecodeRejects(f: seq<byte>)
    requires 12 <= |f| && U32At(f, 4) + 8 != |f|
    ensures Decode(f) == None
  {
    hide U32At, U16At, FindChunk, SamplesIn, Ascii;
  }

  /** Given both chunks, what decides is whether the derived fields are as wide as their values. */
  lemma DecodeOfChunks(f: seq<byte>, rate: u32, channels: u16, body: seq<byte>)
    requires 36 <= |f| && f[..4] == RIFF && U32At(f, 4) + 8 == |f| && f[8..12] == WAVE
    requires FindChunk(f, 12, FMT) == Some(f[20..36]) && FindChunk(f, 12, DATA) == Some(body) && |body| % 2 == 0
    requires f[20..36] == FmtBody(rate, channels)
    ensures Decode(f) == if ByteRate(rate, channels) == rate * channels * 2 && BlockAlign(channels) == channels * 2
                         then Some(Recording(rate, channels, SamplesIn(body))) else None
  {
    FmtLayout(rate, channels, f[20..36]);
    TagsAreAscii();
    hide U32At, U16At, FindChunk, SamplesIn, FmtBody, ByteRate, BlockAlign, Ascii;
  }

  lemma FieldsFitIff(rate: u32, channels: u16)
    ensures ByteRate(rate, channels) == rate * channels * 2 <==> rate * channels * 2 < 0x1_0000_0000
    ensures BlockAlign(channels) == channels * 2 <==> channels * 2 < 0x1_0000
  {
    hide WrapU32, Wrap16;
    MulMonotone(0, rate, channels);
    FitsIff(rate * channels * 2, channels * 2);
  }

  lemma FitsIff(x: nat, y: nat)
    ensures WrapU32(x) == x <==> x < 0x1_0000_0000
    ensures Wrap16(y) == y <==> y < 0x1_0000
  {
  }

  /**
   What one recording leaves on disk, read by the format's own rules, is what was written, exactly when
   no size field overflowed.
   */
  lemma RecordingReadsBackIff(rate: u32, channels: u16, samples: seq<Sample>)
    ensures Decode(Header(rate, channels, DataSize(|samples|)) + SampleBytes(samples))
            == Some(Recording(rate, channels, samples))
       <==> 36 + 2 * |samples| < 0x1_0000_0000 && rate * channels * 2 < 0x1_0000_0000 && channels * 2 < 0x1_0000
  {
    hide *;
    var body := SampleBytes(samples);
    var f := Header(rate, channels, DataSize(|samples|)) + body;
    RiffSizeIff(rate, channels, samples);
    if 36 + 2 * |samples| < 0x1_0000_0000 {
      DataSizeIs(samples);
      FindsChunks(rate, channels, DataSize(|samples|), body);
      LayoutStart(rate, channels, DataSize(|samples|), body);
      DecodeOfChunks(f, rate, channels, body);
      FieldsFitIff(rate, channels);
      SamplesRoundTrip(samples);
    } else {
      DecodeRejects(f);
    }
  }

  lemma DataSizeIs(samples: seq<Sample>)
    requires 36 + 2 * |samples| < 0x1_0000_0000
    ensures DataSize(|samples|) == |SampleBytes(samples)| == 2 * |samples|
  {
  }

  lemma LayoutStart(rate: u32, channels: u16, dataSize: u32, body: seq<byte>)
    ensures var f := Header(rate, channels, dataSize) + body;
            36 <= |f| && f[..4] == RIFF && f[8..12] == WAVE && f[20..36] == FmtBody(rate, channels)
  {
    HeaderLayout(rate, channels, dataSize, body);
    hide Header, FmtBody, Le32, WrapU32;
  }

  /** A sink used again after a stop keeps counting: the sizes it writes then claim more than the file holds. */
  lemma RestartedSinkOverstates(rate: u32, channels: u16, samples: seq<Sample>, before: nat)
    requires 0 < before && 36 + 2 * (before + |samples|) < 0x1_0000_0000
    ensures var f := Header(rate, channels, DataSize(before + |samples|)) + SampleBytes(samples);
            |f| == 44 + 2 * |samples| && U32At(f, 4) == |f| - 8 + 2 * before && Decode(f) == None
  {
    hide Header, U32At, SampleBytes, Decode;
    RiffSizeAt(rate, channels, DataSize(before + |samples|), samples);
    DecodeRejects(Header(rate, channels, DataSize(before + |samples|)) + SampleBytes(samples));
  }

  /**
   When the second file of a reused sink still reads back: only if what the first one counted is a multiple of
   the 32-bit size field, which the size then does not show; never after a recording that fits in one file.
   */
  lemma RestartedSinkReadsBackIff(rate: u32, channels: u16, samples: seq<Sample>, before: nat)
    ensures Decode(Header(rate, channels, DataSize(before + |samples|)) + SampleBytes(samples))
            == Some(Recording(rate, channels, samples))
       <==> 2 * before % 0x1_0000_0000 == 0 && 36 + 2 * |samples| < 0x1_0000_0000
            && rate * channels * 2 < 0x1_0000_0000 && channels * 2 < 0x1_0000
  {
    hide *;
    if 2 * before % 0x1_0000_0000 == 0 {
      CountVanishes(|samples|, before);
      RecordingReadsBackIff(rate, channels, samples);
    } else {
      var f := Header(rate, channels, DataSize(before + |samples|)) + SampleBytes(samples);
      RiffSizeAt(rate, channels, DataSize(before + |samples|), samples);
      SizeShifted(|samples|, before);
      DecodeRejects(f);
    }
  }

  lemma CountVanishes(n: nat, before: nat)
    requires 2 * before % 0x1_0000_0000 == 0
    ensures DataSize(before + n) == DataSize(n)
  {
    var m, q := 0x1_0000_0000, 2 * before / 0x1_0000_0000;
    var p, r := 2 * n / m, 2 * n % m;
    assert 2 * before == q * m && 2 * n == p * m + r;
    Distribute(p, q, m);
    DivModIsUnique(2 * (before + n), m, p + q, r);
  }

  lemma SizeShifted(n: nat, before: nat)
    requires 2 * before % 0x1_0000_0000 != 0
    ensures WrapU32(36 + DataSize(before + n)) != 36 + 2 * n
  {
  }

  lemma SampleBytesLength(samples: seq<Sample>)
    ensures |SampleBytes(samples)| == 2 * |samples|
  {
  }
}
