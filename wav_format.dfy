/**
 * The canonical 44-byte header of a PCM file in the RIFF WAVE format
 * (Multimedia Programming Interface and Data Specifications 1.0, "WAVE form"):
 * a RIFF chunk of type WAVE holding a 16-byte `fmt ` chunk with format tag 1
 * (PCM) and then the `data` chunk. Every number is little-endian.
 *
 *   offset  0 "RIFF"   4 riff size      8 "WAVE"
 *          12 "fmt "  16 16            20 1 (PCM)   22 channels   24 sample rate
 *          28 byte rate               32 block align              34 bits per sample
 *          36 "data"  40 data size     44 samples
 */
module WavFormat {
  import opened Nullable
  import opened Numerics
  import opened LittleEndian

  const HeaderSize: nat := 44
  const FmtChunkSize: Int32 := 16
  const PcmFormatTag: Int16 := 1

  /** `Encoding.ASCII.GetBytes`: characters outside ASCII become '?'. */
  function AsciiBytes(s: string): (b: seq<byte>)
    ensures |b| == |s|
    ensures forall i :: 0 <= i < |s| && (s[i] as int) < 0x80 ==> b[i] == s[i] as int
  {
    if s == [] then []
    else [if (s[0] as int) < 0x80 then s[0] as int else '?' as int] + AsciiBytes(s[1..])
  }

  const RiffTag: seq<byte> := [0x52, 0x49, 0x46, 0x46]
  const WaveTag: seq<byte> := [0x57, 0x41, 0x56, 0x45]
  const FmtTag: seq<byte> := [0x66, 0x6D, 0x74, 0x20]
  const DataTag: seq<byte> := [0x64, 0x61, 0x74, 0x61]

  /** The chunk identifiers, as `Encoding.ASCII` produces them. */
  lemma AsciiTags()
    ensures AsciiBytes("RIFF") == RiffTag && AsciiBytes("WAVE") == WaveTag
    ensures AsciiBytes("fmt ") == FmtTag && AsciiBytes("data") == DataTag
  {
    AsciiTag('R', 'I', 'F', 'F', RiffTag);
    AsciiTag('W', 'A', 'V', 'E', WaveTag);
    AsciiTag('f', 'm', 't', ' ', FmtTag);
    AsciiTag('d', 'a', 't', 'a', DataTag);
  }

  /** Four ASCII characters encode to their codes. */
  lemma AsciiTag(c0: char, c1: char, c2: char, c3: char, tag: seq<byte>)
    requires (c0 as int) < 0x80 && (c1 as int) < 0x80 && (c2 as int) < 0x80 && (c3 as int) < 0x80
    requires tag == [c0 as int, c1 as int, c2 as int, c3 as int]
    ensures AsciiBytes([c0, c1, c2, c3]) == tag
  {
    var b := AsciiBytes([c0, c1, c2, c3]);
    assert b[0] == tag[0] && b[1] == tag[1] && b[2] == tag[2] && b[3] == tag[3];
  }

  /** The numeric fields of the header, as a reader sees them. */
  datatype HeaderFields = HeaderFields(
    riffSize: Int32,
    channels: Int16,
    sampleRate: Int32,
    byteRate: Int32,
    blockAlign: Int16,
    bitsPerSample: Int16,
    dataSize: Int32)

  function RiffChunkBytes(f: HeaderFields): seq<byte>
  {
    RiffTag + Int32Bytes(f.riffSize) + WaveTag
  }

  function FmtChunkBytes(f: HeaderFields): seq<byte>
  {
    FmtTag + Int32Bytes(FmtChunkSize) + Int16Bytes(PcmFormatTag) + Int16Bytes(f.channels)
    + Int32Bytes(f.sampleRate) + Int32Bytes(f.byteRate) + Int16Bytes(f.blockAlign) + Int16Bytes(f.bitsPerSample)
  }

  function DataChunkBytes(f: HeaderFields): seq<byte>
  {
    DataTag + Int32Bytes(f.dataSize)
  }

  /** The header in the order the fields are written. */
  function EncodeHeader(f: HeaderFields): (h: seq<byte>)
    ensures |h| == HeaderSize
  {
    RiffChunkBytes(f) + FmtChunkBytes(f) + DataChunkBytes(f)
  }

  /** Reads a header at the fixed offsets; `None` when a tag or a PCM constant is wrong. */
  function ParseHeader(b: seq<byte>): Option<HeaderFields>
  {
    if |b| < HeaderSize
       || b[0..4] != RiffTag || b[8..12] != WaveTag || b[12..16] != FmtTag
       || ReadInt32(b, 16) != FmtChunkSize || ReadInt16(b, 20) != PcmFormatTag
       || b[36..40] != DataTag
    then None
    else Some(HeaderFields(ReadInt32(b, 4), ReadInt16(b, 22), ReadInt32(b, 24), ReadInt32(b, 28),
                           ReadInt16(b, 32), ReadInt16(b, 34), ReadInt32(b, 40)))
  }

  lemma SliceOfSlice(h: seq<byte>, lo: nat, hi: nat, i: nat, j: nat)
    requires lo <= hi <= |h| && i <= j <= hi - lo
    ensures h[lo..hi][i..j] == h[lo + i..lo + j]
  {
    assert forall k :: 0 <= k < j - i ==> h[lo..hi][i..j][k] == h[lo + i + k];
  }

  lemma RiffChunkAt(f: HeaderFields, h: seq<byte>)
    requires |h| >= 12 && h[0..12] == RiffChunkBytes(f)
    ensures h[0..4] == RiffTag && h[8..12] == WaveTag && ReadInt32(h, 4) == f.riffSize
  {
    var r := h[0..12];
    assert h[0..4] == r[0..4] && h[4..8] == r[4..8] && h[8..12] == r[8..12];
    ReadInt32At(h, 4, f.riffSize);
  }

  lemma FmtChunkAt(f: HeaderFields, h: seq<byte>)
    requires |h| >= 36 && h[12..36] == FmtChunkBytes(f)
    ensures h[12..16] == FmtTag && ReadInt32(h, 16) == FmtChunkSize && ReadInt16(h, 20) == PcmFormatTag
    ensures ReadInt16(h, 22) == f.channels && ReadInt32(h, 24) == f.sampleRate
    ensures ReadInt32(h, 28) == f.byteRate && ReadInt16(h, 32) == f.blockAlign
    ensures ReadInt16(h, 34) == f.bitsPerSample
  {
    var m := FmtChunkBytes(f);
    SliceOfSlice(h, 12, 36, 0, 4);
    SliceOfSlice(h, 12, 36, 4, 8);
    SliceOfSlice(h, 12, 36, 8, 10);
    SliceOfSlice(h, 12, 36, 10, 12);
    SliceOfSlice(h, 12, 36, 12, 16);
    SliceOfSlice(h, 12, 36, 16, 20);
    SliceOfSlice(h, 12, 36, 20, 22);
    SliceOfSlice(h, 12, 36, 22, 24);
    ReadInt32At(h, 16, FmtChunkSize);
    ReadInt16At(h, 20, PcmFormatTag);
    ReadInt16At(h, 22, f.channels);
    ReadInt32At(h, 24, f.sampleRate);
    ReadInt32At(h, 28, f.byteRate);
    ReadInt16At(h, 32, f.blockAlign);
    ReadInt16At(h, 34, f.bitsPerSample);
  }

  lemma DataChunkAt(f: HeaderFields, h: seq<byte>)
    requires |h| >= 44 && h[36..44] == DataChunkBytes(f)
    ensures h[36..40] == DataTag && ReadInt32(h, 40) == f.dataSize
  {
    SliceOfSlice(h, 36, 44, 0, 4);
    SliceOfSlice(h, 36, 44, 4, 8);
    ReadInt32At(h, 40, f.dataSize);
  }

  /** Every header field is found back at its offset, whatever follows the header. */
  lemma ParseEncodeHeader(f: HeaderFields, rest: seq<byte>)
    ensures ParseHeader(EncodeHeader(f) + rest) == Some(f)
  {
    var h := EncodeHeader(f) + rest;
    assert h[0..12] == RiffChunkBytes(f);
    assert h[12..36] == FmtChunkBytes(f);
    assert h[36..44] == DataChunkBytes(f);
    RiffChunkAt(f, h);
    FmtChunkAt(f, h);
    DataChunkAt(f, h);
  }

  /** A header the reader accepts is exactly the encoding of what it read. */
  lemma EncodeParseHeader(b: seq<byte>)
    requires ParseHeader(b).Some?
    ensures EncodeHeader(ParseHeader(b).value) == b[..HeaderSize]
  {
    var f := ParseHeader(b).value;
    Int32Injective(b[4..8]);
    Int32Injective(b[16..20]);
    Int16Injective(b[20..22]);
    Int16Injective(b[22..24]);
    Int32Injective(b[24..28]);
    Int32Injective(b[28..32]);
    Int16Injective(b[32..34]);
    Int16Injective(b[34..36]);
    Int32Injective(b[40..44]);
    assert RiffChunkBytes(f) == b[0..4] + b[4..8] + b[8..12] == b[0..12];
    assert FmtChunkBytes(f) == b[12..16] + b[16..20] + b[20..22] + b[22..24]
                               + b[24..28] + b[28..32] + b[32..34] + b[34..36] == b[12..36];
    assert DataChunkBytes(f) == b[36..40] + b[40..44] == b[36..44];
    assert b[..HeaderSize] == b[0..12] + b[12..36] + b[36..44];
  }

  /**
   * `GetWavDuration`: the bytes after the 44-byte header divided by the byte
   * rate at offset 28; 0 for a file shorter than a header or a zero byte rate.
   * (The source divides in single-precision floating point.)
   */
  function WavDuration(wav: seq<byte>): (seconds: real)
    ensures |wav| >= HeaderSize && ReadInt32(wav, 28) != 0
            ==> seconds * (ReadInt32(wav, 28) as real) == (|wav| - HeaderSize) as real
    ensures |wav| < HeaderSize || ReadInt32(wav, 28) == 0 ==> seconds == 0.0
  {
    if |wav| < HeaderSize then 0.0
    else
      var byteRate := ReadInt32(wav, 28);
      if byteRate == 0 then 0.0 else (|wav| - HeaderSize) as real / byteRate as real
  }

  /** The duration of a file with a well-formed header uses the byte rate the header declares. */
  lemma DurationOfEncoded(f: HeaderFields, body: seq<byte>)
    requires f.byteRate != 0
    ensures WavDuration(EncodeHeader(f) + body) == |body| as real / f.byteRate as real
  {
    var h := EncodeHeader(f) + body;
    assert h[12..36] == FmtChunkBytes(f);
    FmtChunkAt(f, h);
  }
}
