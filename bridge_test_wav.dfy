/**
 * The dummy WAV file of the bridge test (Tests/BridgeTest.cs: CreateDummyWavFile
 * and its byte writers): one second of 16-bit stereo silence at 44100 Hz, whose
 * header is written field by field into a zero-filled `byte[]`.
 */
module BridgeTestWav {
  import opened Nullable
  import opened Numerics
  import opened LittleEndian
  import opened WavFormat
  import Exporter

  /** `(byte)c`: the low eight bits of the character code. */
  function CharByte(c: char): byte { (c as int) % 0x100 }

  /** The bytes WriteString stores for `s`. */
  function StringBytes(s: string): (b: seq<byte>)
    ensures |b| == |s| && forall i :: 0 <= i < |s| ==> b[i] == CharByte(s[i])
  {
    seq(|s|, i requires 0 <= i < |s| => CharByte(s[i]))
  }

  /** For ASCII text, the byte cast and `Encoding.ASCII` agree. */
  lemma StringBytesOfAscii(s: string)
    requires forall i :: 0 <= i < |s| ==> (s[i] as int) < 0x80
    ensures StringBytes(s) == AsciiBytes(s)
  {
    var a, b := StringBytes(s), AsciiBytes(s);
    forall i | 0 <= i < |s|
      ensures a[i] == b[i]
    {
      AsciiCharByte(s[i]);
    }
  }

  lemma AsciiCharByte(c: char)
    requires (c as int) < 0x80
    ensures CharByte(c) == c as int
  {
  }

  /** `s` with the bytes from `offset` on overwritten by `piece`. */
  function Splice(s: seq<byte>, offset: nat, piece: seq<byte>): (r: seq<byte>)
    requires offset + |piece| <= |s|
    ensures |r| == |s|
    ensures forall j :: 0 <= j < |s| ==> r[j] == if offset <= j < offset + |piece| then piece[j - offset] else s[j]
  {
    s[..offset] + piece + s[offset + |piece|..]
  }

  method WriteString(buffer: array<byte>, offset: nat, value: string)
    requires offset + |value| <= buffer.Length
    modifies buffer
    ensures buffer[..] == Splice(old(buffer[..]), offset, StringBytes(value))
  {
    for i := 0 to |value|
      invariant forall j :: 0 <= j < i ==> buffer[offset + j] == CharByte(value[j])
      invariant forall j :: 0 <= j < buffer.Length && !(offset <= j < offset + i) ==> buffer[j] == old(buffer[j])
    {
      buffer[offset + i] := CharByte(value[i]);
    }
  }

  /** The shift-and-mask bytes `(byte)((v >> 8k) & 0xFF)` are the little-endian encoding. */
  lemma ShiftMaskInt32(v: Int32)
    ensures [v % 0x100, (v / 0x100) % 0x100, (v / 0x1_0000) % 0x100, (v / 0x100_0000) % 0x100] == Int32Bytes(v)
  {
    var u := v % TwoTo32;
    assert Int32Bytes(v) == [u % 0x100, (u / 0x100) % 0x100, (u / 0x1_0000) % 0x100, (u / 0x100_0000) % 0x100];
    if v < 0 {
      assert u == v + 0x100 * 0x100_0000;
      DivShift(v, 0x100, 0x100_0000);
      DivShift(v, 0x1_0000, 0x1_0000);
      DivShift(v, 0x100_0000, 0x100);
      ModShift(v, 0x100_0000);
      ModShift(v / 0x100, 0x1_0000);
      ModShift(v / 0x1_0000, 0x100);
      ModShift(v / 0x100_0000, 1);
      assert u % 0x100 == v % 0x100;
      assert (u / 0x100) % 0x100 == (v / 0x100) % 0x100;
      assert (u / 0x1_0000) % 0x100 == (v / 0x1_0000) % 0x100;
      assert (u / 0x100_0000) % 0x100 == (v / 0x100_0000) % 0x100;
    } else {
      assert u == v;
    }
  }

  /** Adding a multiple of the divisor shifts the quotient. */
  lemma DivShift(v: int, d: int, k: int)
    requires d in {0x100, 0x1_0000, 0x100_0000}
    ensures (v + d * k) / d == v / d + k
  {
    var q, r := v / d, v % d;
    assert v == d * q + r && 0 <= r < d;
    if d == 0x100 {
      assert v + 0x100 * k == 0x100 * (q + k) + r;
    } else if d == 0x1_0000 {
      assert v + 0x1_0000 * k == 0x1_0000 * (q + k) + r;
    } else {
      assert v + 0x100_0000 * k == 0x100_0000 * (q + k) + r;
    }
  }

  /** Adding a multiple of 0x100 leaves the low byte alone. */
  lemma ModShift(v: int, k: int)
    ensures (v + 0x100 * k) % 0x100 == v % 0x100
  {
    DivShift(v, 0x100, k);
  }

  lemma ShiftMaskInt16(v: Int16)
    ensures [v % 0x100, (v / 0x100) % 0x100] == Int16Bytes(v)
  {
    var u := v % TwoTo16;
    assert Int16Bytes(v) == [u % 0x100, (u / 0x100) % 0x100];
    if v < 0 {
      assert u == v + 0x100 * 0x100;
      DivShift(v, 0x100, 0x100);
      ModShift(v, 0x100);
      ModShift(v / 0x100, 1);
      assert u % 0x100 == v % 0x100;
      assert (u / 0x100) % 0x100 == (v / 0x100) % 0x100;
    } else {
      assert u == v;
    }
  }

  method WriteInt32(buffer: array<byte>, offset: nat, value: Int32)
    requires offset + 4 <= buffer.Length
    modifies buffer
    ensures buffer[..] == Splice(old(buffer[..]), offset, Int32Bytes(value))
  {
    buffer[offset] := value % 0x100;
    buffer[offset + 1] := (value / 0x100) % 0x100;
    buffer[offset + 2] := (value / 0x1_0000) % 0x100;
    buffer[offset + 3] := (value / 0x100_0000) % 0x100;
    ShiftMaskInt32(value);
  }

  method WriteInt16(buffer: array<byte>, offset: nat, value: Int16)
    requires offset + 2 <= buffer.Length
    modifies buffer
    ensures buffer[..] == Splice(old(buffer[..]), offset, Int16Bytes(value))
  {
    buffer[offset] := value % 0x100;
    buffer[offset + 1] := (value / 0x100) % 0x100;
    ShiftMaskInt16(value);
  }

  // The test's constants: `numSamples` is `(int)(44100 * 1.0f)`, exactly 44100.
  const SampleRate: Int32 := 44100
  const Channels: Int32 := 2
  const BitsPerSample: Int32 := 16
  const NumSamples: nat := 44100
  const DataSize: nat := NumSamples * Channels * (BitsPerSample / 8)
  const FileSize: nat := 44 + DataSize

  /** The header the test writes: the RIFF size is the file size less 8. */
  function DummyFields(): HeaderFields
  {
    HeaderFields(FileSize - 8, Channels, SampleRate, SampleRate * Channels * (BitsPerSample / 8),
                 Channels * (BitsPerSample / 8), BitsPerSample, DataSize)
  }

  function Zeros(n: nat): (z: seq<byte>)
    ensures |z| == n && forall i :: 0 <= i < n ==> z[i] == 0
  {
    seq(n, _ => 0)
  }

  /** The file CreateDummyWavFile saves. */
  function DummyWav(): seq<byte>
  {
    EncodeHeader(DummyFields()) + Zeros(DataSize)
  }

  /** The header written piece by piece, in the order of the test's writes. */
  lemma HeaderAsWritten(f: HeaderFields)
    ensures EncodeHeader(f)
            == RiffTag + Int32Bytes(f.riffSize) + WaveTag + FmtTag + Int32Bytes(FmtChunkSize)
               + Int16Bytes(PcmFormatTag) + Int16Bytes(f.channels) + Int32Bytes(f.sampleRate)
               + Int32Bytes(f.byteRate) + Int16Bytes(f.blockAlign) + Int16Bytes(f.bitsPerSample)
               + DataTag + Int32Bytes(f.dataSize)
  {
  }

  /** The pieces CreateDummyWavFile writes make up the encoding of DummyFields. */
  lemma DummyHeaderAsWritten()
    ensures EncodeHeader(DummyFields())
            == StringBytes("RIFF") + Int32Bytes(FileSize - 8) + StringBytes("WAVE") + StringBytes("fmt ")
               + Int32Bytes(16) + Int16Bytes(1) + Int16Bytes(Wrap16(Channels)) + Int32Bytes(SampleRate)
               + Int32Bytes(SampleRate * Channels * (BitsPerSample / 8))
               + Int16Bytes(Wrap16(Channels * (BitsPerSample / 8))) + Int16Bytes(Wrap16(BitsPerSample))
               + StringBytes("data") + Int32Bytes(DataSize)
  {
    StringBytesOfAscii("RIFF");
    StringBytesOfAscii("WAVE");
    StringBytesOfAscii("fmt ");
    StringBytesOfAscii("data");
    AsciiTags();
    HeaderAsWritten(DummyFields());
  }

  /** Two adjacent writes are one write of the two pieces in a row. */
  lemma SpliceAdjacent(s: seq<byte>, offset: nat, p: seq<byte>, q: seq<byte>)
    requires offset + |p| + |q| <= |s|
    ensures Splice(Splice(s, offset, p), offset + |p|, q) == Splice(s, offset, p + q)
  {
    var l, r := Splice(Splice(s, offset, p), offset + |p|, q), Splice(s, offset, p + q);
    forall j | 0 <= j < |s|
      ensures l[j] == r[j]
    {
      if offset <= j < offset + |p| {
        assert (p + q)[j - offset] == p[j - offset];
      } else if offset + |p| <= j < offset + |p| + |q| {
        assert (p + q)[j - offset] == q[j - offset - |p|];
      }
    }
  }

  /** Writing a header over a zero-filled buffer leaves the header followed by zeros. */
  lemma SpliceOverZeros(header: seq<byte>, n: nat)
    requires |header| <= n
    ensures Splice(Zeros(n), 0, header) == header + Zeros(n - |header|)
  {
  }

  /** The RIFF header: the tag, the size of the rest of the file, and the WAVE tag. */
  method WriteRiffChunk(wav: array<byte>, riffSize: Int32)
    requires 12 <= wav.Length
    modifies wav
    ensures wav[..] == Splice(old(wav[..]), 0, StringBytes("RIFF") + Int32Bytes(riffSize) + StringBytes("WAVE"))
  {
    ghost var w0 := wav[..];
    WriteString(wav, 0, "RIFF");
    WriteInt32(wav, 4, riffSize);
    SpliceAdjacent(w0, 0, StringBytes("RIFF"), Int32Bytes(riffSize));
    WriteString(wav, 8, "WAVE");
    SpliceAdjacent(w0, 0, StringBytes("RIFF") + Int32Bytes(riffSize), StringBytes("WAVE"));
  }

  /** The format chunk: its tag, size 16, PCM, then the stream parameters. */
  method WriteFmtChunk(wav: array<byte>, channels: Int16, sampleRate: Int32, byteRate: Int32,
                       blockAlign: Int16, bitsPerSample: Int16)
    requires 36 <= wav.Length
    modifies wav
    ensures wav[..] == Splice(old(wav[..]), 12, StringBytes("fmt ") + Int32Bytes(16) + Int16Bytes(1)
                                                + Int16Bytes(channels) + Int32Bytes(sampleRate) + Int32Bytes(byteRate)
                                                + Int16Bytes(blockAlign) + Int16Bytes(bitsPerSample))
  {
    ghost var w0 := wav[..];
    WriteString(wav, 12, "fmt ");
    ghost var done := StringBytes("fmt ");
    WriteInt32(wav, 16, 16);
    SpliceAdjacent(w0, 12, done, Int32Bytes(16));
    done := done + Int32Bytes(16);
    WriteInt16(wav, 20, 1);
    SpliceAdjacent(w0, 12, done, Int16Bytes(1));
    done := done + Int16Bytes(1);
    WriteInt16(wav, 22, channels);
    SpliceAdjacent(w0, 12, done, Int16Bytes(channels));
    done := done + Int16Bytes(channels);
    WriteInt32(wav, 24, sampleRate);
    SpliceAdjacent(w0, 12, done, Int32Bytes(sampleRate));
    done := done + Int32Bytes(sampleRate);
    WriteInt32(wav, 28, byteRate);
    SpliceAdjacent(w0, 12, done, Int32Bytes(byteRate));
    done := done + Int32Bytes(byteRate);
    WriteInt16(wav, 32, blockAlign);
    SpliceAdjacent(w0, 12, done, Int16Bytes(blockAlign));
    done := done + Int16Bytes(blockAlign);
    WriteInt16(wav, 34, bitsPerSample);
    SpliceAdjacent(w0, 12, done, Int16Bytes(bitsPerSample));
  }

  /** The data chunk header: its tag and the size of the samples. */
  method WriteDataChunk(wav: array<byte>, dataSize: Int32)
    requires 44 <= wav.Length
    modifies wav
    ensures wav[..] == Splice(old(wav[..]), 36, StringBytes("data") + Int32Bytes(dataSize))
  {
    ghost var w0 := wav[..];
    WriteString(wav, 36, "data");
    WriteInt32(wav, 40, dataSize);
    SpliceAdjacent(w0, 36, StringBytes("data"), Int32Bytes(dataSize));
  }

  /**
   * CreateDummyWavFile: `None` when dummy creation is disabled or the file
   * cannot be written (`writeSucceeds`), otherwise the bytes it saved.
   */
  method CreateDummyWavFile(enabled: bool, writeSucceeds: bool) returns (saved: Option<seq<byte>>)
    ensures saved.Some? <==> enabled && writeSucceeds
    ensures saved.Some? ==> saved.value == DummyWav()
  {
    if !enabled {
      return None;
    }
    var sampleRate: Int32 := 44100;
    var channels: Int32 := 2;
    var bitsPerSample: Int32 := 16;
    var numSamples: nat := 44100;
    var dataSize: nat := numSamples * channels * (bitsPerSample / 8);
    var fileSize: nat := 44 + dataSize;
    assert dataSize == DataSize && fileSize == FileSize;
    var wav := new byte[fileSize](_ => 0);
    // The samples are the zeros the new array starts with.
    ghost var w0 := wav[..];
    WriteRiffChunk(wav, fileSize - 8);
    ghost var w1 := wav[..];
    WriteFmtChunk(wav, Wrap16(channels), sampleRate, sampleRate * channels * (bitsPerSample / 8),
                  Wrap16(channels * (bitsPerSample / 8)), Wrap16(bitsPerSample));
    ghost var w2 := wav[..];
    WriteDataChunk(wav, dataSize);
    WritesMakeDummyWav(w0, w1, w2, wav[..]);
    if !writeSucceeds {
      return None;
    }
    return Some(wav[..]);
  }

  /** The three chunk writes over a zero-filled buffer of the file's size leave the dummy file. */
  lemma WritesMakeDummyWav(w0: seq<byte>, w1: seq<byte>, w2: seq<byte>, w3: seq<byte>)
    requires w0 == seq(FileSize, _ => 0)
    requires w1 == Splice(w0, 0, StringBytes("RIFF") + Int32Bytes(FileSize - 8) + StringBytes("WAVE"))
    requires w2 == Splice(w1, 12, StringBytes("fmt ") + Int32Bytes(16) + Int16Bytes(1) + Int16Bytes(Wrap16(Channels))
                                  + Int32Bytes(SampleRate) + Int32Bytes(SampleRate * Channels * (BitsPerSample / 8))
                                  + Int16Bytes(Wrap16(Channels * (BitsPerSample / 8))) + Int16Bytes(Wrap16(BitsPerSample)))
    requires w3 == Splice(w2, 36, StringBytes("data") + Int32Bytes(DataSize))
    ensures w3 == DummyWav()
  {
    var riff := StringBytes("RIFF") + Int32Bytes(FileSize - 8) + StringBytes("WAVE");
    var fmt := StringBytes("fmt ") + Int32Bytes(16) + Int16Bytes(1) + Int16Bytes(Wrap16(Channels))
               + Int32Bytes(SampleRate) + Int32Bytes(SampleRate * Channels * (BitsPerSample / 8))
               + Int16Bytes(Wrap16(Channels * (BitsPerSample / 8))) + Int16Bytes(Wrap16(BitsPerSample));
    var data := StringBytes("data") + Int32Bytes(DataSize);
    ThreeSplices(w0, w1, w2, w3, riff, fmt, data);
    DummyHeaderAsWritten();
  }

  /** Three adjacent pieces written over zeros: the pieces, then the zeros left. */
  lemma ThreeSplices(w0: seq<byte>, w1: seq<byte>, w2: seq<byte>, w3: seq<byte>,
                     riff: seq<byte>, fmt: seq<byte>, data: seq<byte>)
    requires |riff| == 12 && |fmt| == 24 && |data| == 8 && 44 <= |w0|
    requires w0 == seq(|w0|, _ => 0)
    requires w1 == Splice(w0, 0, riff) && w2 == Splice(w1, 12, fmt) && w3 == Splice(w2, 36, data)
    ensures w3 == riff + fmt + data + Zeros(|w0| - 44)
  {
    assert w0 == Zeros(|w0|);
    SpliceAdjacent(w0, 0, riff, fmt);
    SpliceAdjacent(w0, 0, riff + fmt, data);
    SpliceOverZeros(riff + fmt + data, |w0|);
  }

  /**
   * The dummy file is a well-formed one-second WAV: its header parses back to
   * DummyFields, the RIFF and data sizes agree with its length, and every
   * sample byte is zero.
   */
  lemma DummyWavLayout()
    ensures |DummyWav()| == 176444
    ensures ParseHeader(DummyWav()) == Some(DummyFields())
    ensures DummyFields().riffSize == |DummyWav()| - 8
    ensures DummyFields().dataSize == |DummyWav()| - HeaderSize
    ensures forall i :: HeaderSize <= i < |DummyWav()| ==> DummyWav()[i] == 0
    ensures WavDuration(DummyWav()) == 1.0
  {
    var f := HeaderFields(176436, 2, 44100, 176400, 4, 16, 176400);
    assert DummyFields() == f && DataSize == 176400;
    ParseEncodeHeader(f, Zeros(176400));
    OneSecond(f, Zeros(176400));
  }

  /** A body as long as the byte rate of a 44100 Hz 16-bit stereo header lasts one second. */
  lemma OneSecond(f: HeaderFields, body: seq<byte>)
    requires f == HeaderFields(176436, 2, 44100, 176400, 4, 16, 176400) && |body| == 176400
    ensures WavDuration(EncodeHeader(f) + body) == 1.0
  {
    DurationOfEncoded(f, body);
  }

  /**
   * Exporting one second of stereo silence at 44100 Hz, 16 bits, produces the
   * test's dummy file byte for byte (for a quantiser that maps silence to 0).
   */
  lemma ExportedSilenceIsDummy(quantise: real -> Int16)
    requires quantise(0.0) == 0
    ensures Exporter.WavFile(Exporter.Options(44100, 2, 16), seq(88200, _ => 0.0), quantise) == DummyWav()
  {
    var o := Exporter.Options(44100, 2, 16);
    Exporter.SixteenBitRates(o);
    Exporter.SixteenBitSizes(o, 88200);
    assert Wrap16(4) == 4 && Wrap16(2) == 2 && Wrap16(16) == 16;
    assert Exporter.HeaderFor(o, 88200) == DummyFields();
    SilentSamples(seq(88200, _ => 0.0), quantise);
  }

  lemma {:induction false} SilentSamples(samples: seq<real>, quantise: real -> Int16)
    requires quantise(0.0) == 0
    requires forall i :: 0 <= i < |samples| ==> samples[i] == 0.0
    ensures Exporter.SampleBytes(samples, quantise) == Zeros(2 * |samples|)
  {
    if samples != [] {
      SilentSamples(samples[..|samples| - 1], quantise);
      assert Int16Bytes(0) == [0, 0];
      assert Zeros(2 * (|samples| - 1)) + [0, 0] == Zeros(2 * |samples|);
    }
  }
}
