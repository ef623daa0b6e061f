/**
 * Writing the mixed-down buffer as a 16-bit PCM WAV file
 * (AudioExport.Exporter.cs: ToFileAsync and WriteWavFileAsync).
 *
 * The mixdown itself, the file system and the float-to-short quantisation
 * `(short)(sample * 32767f)` are inputs: the mixed buffer is an optional
 * sequence of reals, `quantise` is an arbitrary function to `short`, and the
 * points where the stream throws are described by a `WriteFault`.
 */
module Exporter {
  import opened Nullable
  import opened Numerics
  import opened LittleEndian
  import opened Decimal
  import opened Faults
  import opened WavFormat

  /** `AudioExport.Options`. */
  datatype Options = Options(targetSampleRate: Int32, targetChannels: Int32, bitsPerSample: Int32)

  datatype ExportResult = ExportResult(success: bool, pathOrError: string)

  /** Where the file stream throws: on opening, or on writing sample `index`. */
  datatype WriteFault = NoFault | OpenFault(message: string) | SampleFault(index: nat, message: string)

  const NullExportMessage := "AudioExport data was null."
  const EmptyBufferMessage := "The mixed audio buffer was empty."
  const HeaderErrorPrefix := "Failed to write WAV header: "

  // The header arithmetic of WriteWavFileAsync, in C#'s unchecked `int`/`short`.

  function BytesPerSample(o: Options): int { DivBy8(o.bitsPerSample) }

  function ByteRate(o: Options): Int32
  {
    Wrap32(Wrap32(o.targetSampleRate * o.targetChannels) * BytesPerSample(o))
  }

  function BlockAlign(o: Options): Int16 { Wrap16(Wrap32(o.targetChannels * BytesPerSample(o))) }

  function DataSize(o: Options, sampleCount: nat): Int32 { Wrap32(sampleCount * BytesPerSample(o)) }

  function RiffSize(o: Options, sampleCount: nat): Int32 { Wrap32(36 + DataSize(o, sampleCount)) }

  /** The fields the exporter puts in the header of a file of `sampleCount` samples. */
  function HeaderFor(o: Options, sampleCount: nat): (f: HeaderFields)
    ensures f.riffSize == Wrap32(36 + f.dataSize)
    ensures f.sampleRate == o.targetSampleRate
  {
    HeaderFields(RiffSize(o, sampleCount), Wrap16(o.targetChannels), o.targetSampleRate, ByteRate(o),
                 BlockAlign(o), Wrap16(o.bitsPerSample), DataSize(o, sampleCount))
  }

  /** Each sample as one little-endian `short`, in buffer order. */
  function SampleBytes(samples: seq<real>, quantise: real -> Int16): (b: seq<byte>)
    ensures |b| == 2 * |samples|
  {
    if samples == [] then []
    else SampleBytes(samples[..|samples| - 1], quantise) + Int16Bytes(quantise(samples[|samples| - 1]))
  }

  /** The complete file for a buffer: the header, then every sample. */
  function WavFile(o: Options, samples: seq<real>, quantise: real -> Int16): seq<byte>
  {
    EncodeHeader(HeaderFor(o, |samples|)) + SampleBytes(samples, quantise)
  }

  /** Sample `k` of the buffer is the `short` at byte `2k` of the sample area. */
  lemma {:induction false} SampleAt(samples: seq<real>, quantise: real -> Int16, k: nat)
    requires k < |samples|
    ensures ReadInt16(SampleBytes(samples, quantise), 2 * k) == quantise(samples[k])
  {
    var b := SampleBytes(samples, quantise);
    var front := samples[..|samples| - 1];
    if k == |samples| - 1 {
      assert b[2 * k..2 * k + 2] == Int16Bytes(quantise(samples[k]));
      Int16RoundTrip(quantise(samples[k]));
    } else {
      SampleAt(front, quantise, k);
      var fb := SampleBytes(front, quantise);
      assert b[2 * k..2 * k + 2] == fb[2 * k..2 * k + 2];
    }
  }

  /**
   * A completed export is a well-formed PCM file: 44 header bytes declaring the
   * exporter's fields, then exactly one `short` per buffer element in order, and
   * its duration as `GetWavDuration` computes it is the sample bytes over the byte rate.
   */
  lemma ExportedFileLayout(o: Options, samples: seq<real>, quantise: real -> Int16)
    ensures |WavFile(o, samples, quantise)| == HeaderSize + 2 * |samples|
    ensures ParseHeader(WavFile(o, samples, quantise)) == Some(HeaderFor(o, |samples|))
    ensures forall k :: 0 <= k < |samples| ==>
              ReadInt16(WavFile(o, samples, quantise), HeaderSize + 2 * k) == quantise(samples[k])
    ensures ByteRate(o) != 0 ==>
              WavDuration(WavFile(o, samples, quantise)) == (2 * |samples|) as real / ByteRate(o) as real
  {
    var h := EncodeHeader(HeaderFor(o, |samples|));
    var body := SampleBytes(samples, quantise);
    var file := h + body;
    ParseEncodeHeader(HeaderFor(o, |samples|), body);
    forall k | 0 <= k < |samples|
      ensures ReadInt16(file, HeaderSize + 2 * k) == quantise(samples[k])
    {
      SampleAt(samples, quantise, k);
      assert file[HeaderSize + 2 * k..HeaderSize + 2 * k + 2] == body[2 * k..2 * k + 2];
    }
    if ByteRate(o) != 0 {
      DurationOfEncoded(HeaderFor(o, |samples|), body);
    }
  }

  /**
   * Samples are always written as 16-bit values, but the size fields are
   * computed from `BitsPerSample`: without overflow, the declared data size
   * and RIFF size match the file exactly when the buffer is empty or the
   * sample width is two bytes (`BitsPerSample` 16 to 23).
   */
  lemma SizeFieldsMatchBody(o: Options, samples: seq<real>, quantise: real -> Int16)
    requires 0 <= o.bitsPerSample
    requires 36 + |samples| * BytesPerSample(o) < 0x8000_0000
    ensures DataSize(o, |samples|) == |SampleBytes(samples, quantise)| <==> |samples| == 0 || BytesPerSample(o) == 2
    ensures RiffSize(o, |samples|) == |WavFile(o, samples, quantise)| - 8 <==> |samples| == 0 || BytesPerSample(o) == 2
  {
    var n, b := |samples|, BytesPerSample(o);
    var p := n * b;
    NonNegativeProduct(n, b);
    assert DataSize(o, n) == p;
    assert RiffSize(o, n) == 36 + p;
    if n > 0 {
      ProductIsDouble(n, b);
    }
  }

  lemma NonNegativeProduct(n: nat, b: nat)
    ensures 0 <= n * b
  {
  }

  lemma ProductIsDouble(n: nat, b: int)
    requires n > 0
    ensures n * b == 2 * n <==> b == 2
  {
    assert n * b - 2 * n == n * (b - 2);
    if b < 2 {
      PositiveProduct(n, 2 - b);
      assert n * (2 - b) == -(n * (b - 2));
    } else if b > 2 {
      PositiveProduct(n, b - 2);
    }
  }

  lemma {:induction false} PositiveProduct(n: nat, d: nat)
    requires n > 0 && d > 0
    ensures n * d > 0
  {
    if n > 1 {
      PositiveProduct(n - 1, d);
      assert n * d == (n - 1) * d + d;
    }
  }

  /** For 16-bit samples without overflow, the rate fields are the PCM formulas. */
  lemma SixteenBitRates(o: Options)
    requires o.bitsPerSample == 16 && 0 <= o.targetSampleRate && 0 <= o.targetChannels
    requires o.targetSampleRate * o.targetChannels * 2 < 0x8000_0000
    ensures ByteRate(o) == o.targetSampleRate * o.targetChannels * 2
    ensures BlockAlign(o) == Wrap16(o.targetChannels * 2)
  {
    assert BytesPerSample(o) == 2;
    assert ByteRate(o) == o.targetSampleRate * o.targetChannels * 2 by {
      var rc := o.targetSampleRate * o.targetChannels;
      NonNegativeProduct(o.targetSampleRate, o.targetChannels);
      assert Wrap32(rc) == rc;
    }
    Wrap16OfWrap32(o.targetChannels * 2);
  }

  /** For 16-bit samples without overflow, the size fields count the sample bytes and the rest of the header. */
  lemma SixteenBitSizes(o: Options, sampleCount: nat)
    requires o.bitsPerSample == 16
    requires 36 + 2 * sampleCount < 0x8000_0000
    ensures DataSize(o, sampleCount) == 2 * sampleCount
    ensures RiffSize(o, sampleCount) == 36 + 2 * sampleCount
  {
    assert BytesPerSample(o) == 2;
  }

  /** The divisor of the periodic yield `i % (rate * channels)`. */
  function YieldPeriod(o: Options): Int32 { Wrap32(o.targetSampleRate * o.targetChannels) }

  /** The samples that reach the file before the loop stops (a fault, the yield's division, or the end). */
  function SamplesWritten(o: Options, count: nat, fault: WriteFault): (n: nat)
    ensures n <= count
    ensures YieldPeriod(o) != 0 && !(fault.SampleFault? && fault.index < count) ==> n == count
  {
    var stop := if fault.SampleFault? && fault.index < count then fault.index else count;
    if YieldPeriod(o) == 0 && stop > 2 then 2 else stop
  }

  function SampleErrorMessage(index: nat, message: string): string
  {
    "Error writing sample #" + IntToString(index) + ": " + message
  }

  /** What WriteWavFileAsync returns, or the exception that escapes it, once the stream is open. */
  function LoopOutcome(o: Options, filePath: string, count: nat, fault: WriteFault): Outcome<ExportResult>
  {
    var stop := if fault.SampleFault? && fault.index < count then fault.index else count;
    if YieldPeriod(o) == 0 && stop >= 2 then Raised(DivideByZero)
    else if stop < count then
      Returned(ExportResult(false, SampleErrorMessage(stop, fault.message)))
    else Returned(ExportResult(true, filePath))
  }

  /** The output stream: a `FileStream` wrapped in a `BinaryWriter`. */
  class BinaryWriter {
    var written: seq<byte>

    constructor ()
      ensures written == []
    {
      written := [];
    }

    method WriteBytes(b: seq<byte>)
      modifies this
      ensures written == old(written) + b
    {
      written := written + b;
    }

    method WriteInt32(v: Int32)
      modifies this
      ensures written == old(written) + Int32Bytes(v)
    {
      written := written + Int32Bytes(v);
    }

    method WriteInt16(v: Int16)
      modifies this
      ensures written == old(written) + Int16Bytes(v)
    {
      written := written + Int16Bytes(v);
    }
  }

  /** The header block of WriteWavFileAsync: the size fields, then the three chunks' fields in order. */
  method WriteHeader(w: BinaryWriter, o: Options, sampleCount: nat)
    modifies w
    ensures w.written == old(w.written) + EncodeHeader(HeaderFor(o, sampleCount))
  {
    var byteRate := ByteRate(o);
    var blockAlign := BlockAlign(o);
    var dataSize := DataSize(o, sampleCount);
    var riffHeaderSize := RiffSize(o, sampleCount);
    ghost var f := HeaderFor(o, sampleCount);

    AsciiTags();
    ghost var w0 := w.written;
    w.WriteBytes(AsciiBytes("RIFF"));
    w.WriteInt32(riffHeaderSize);
    w.WriteBytes(AsciiBytes("WAVE"));
    Append3(w0, RiffTag, Int32Bytes(f.riffSize), WaveTag);

    ghost var w1 := w.written;
    w.WriteBytes(AsciiBytes("fmt "));
    w.WriteInt32(FmtChunkSize);
    w.WriteInt16(PcmFormatTag);
    w.WriteInt16(Wrap16(o.targetChannels));
    Append4(w1, FmtTag, Int32Bytes(FmtChunkSize), Int16Bytes(PcmFormatTag), Int16Bytes(f.channels));
    ghost var w2 := w.written;
    w.WriteInt32(o.targetSampleRate);
    w.WriteInt32(byteRate);
    w.WriteInt16(blockAlign);
    w.WriteInt16(Wrap16(o.bitsPerSample));
    Append4(w2, Int32Bytes(f.sampleRate), Int32Bytes(f.byteRate), Int16Bytes(f.blockAlign), Int16Bytes(f.bitsPerSample));
    ghost var w3 := w.written;
    w.WriteBytes(AsciiBytes("data"));
    w.WriteInt32(dataSize);
    Append3(w3, DataTag, Int32Bytes(f.dataSize), []);
    HeaderPieces(w0, f);
  }

  lemma Append3(a: seq<byte>, x: seq<byte>, y: seq<byte>, z: seq<byte>)
    ensures a + x + y + z == a + (x + y + z)
  {
  }

  lemma Append4(a: seq<byte>, x: seq<byte>, y: seq<byte>, z: seq<byte>, t: seq<byte>)
    ensures a + x + y + z + t == a + (x + y + z + t)
  {
  }

  lemma HeaderPieces(a: seq<byte>, f: HeaderFields)
    ensures a + RiffChunkBytes(f)
              + (FmtTag + Int32Bytes(FmtChunkSize) + Int16Bytes(PcmFormatTag) + Int16Bytes(f.channels))
              + (Int32Bytes(f.sampleRate) + Int32Bytes(f.byteRate) + Int16Bytes(f.blockAlign) + Int16Bytes(f.bitsPerSample))
              + (DataTag + Int32Bytes(f.dataSize) + [])
            == a + EncodeHeader(f)
  {
  }

  method WriteWavFile(o: Options, filePath: string, buffer: seq<real>, quantise: real -> Int16, fault: WriteFault)
    returns (outcome: Outcome<ExportResult>, file: Option<seq<byte>>)
    requires |buffer| < 0x8000_0000
    ensures fault.OpenFault? ==> file.None? && outcome == Returned(ExportResult(false, HeaderErrorPrefix + fault.message))
    ensures !fault.OpenFault? ==> outcome == LoopOutcome(o, filePath, |buffer|, fault)
    ensures !fault.OpenFault? ==> file == Some(EncodeHeader(HeaderFor(o, |buffer|))
                                             + SampleBytes(buffer[..SamplesWritten(o, |buffer|, fault)], quantise))
  {
    if fault.OpenFault? {
      return Returned(ExportResult(false, HeaderErrorPrefix + fault.message)), None;
    }
    var w := new BinaryWriter();
    WriteHeader(w, o, |buffer|);
    ghost var header := EncodeHeader(HeaderFor(o, |buffer|));

    ghost var written := SamplesWritten(o, |buffer|, fault);
    var i := 0;
    while i < |buffer|
      invariant 0 <= i <= written
      invariant YieldPeriod(o) == 0 ==> i <= 1
      invariant fault.SampleFault? ==> i <= fault.index
      invariant w.written == header + SampleBytes(buffer[..i], quantise)
    {
      if fault.SampleFault? && fault.index == i {
        assert written == i;
        assert w.written == header + SampleBytes(buffer[..written], quantise);
        return Returned(ExportResult(false, SampleErrorMessage(i, fault.message))), Some(w.written);
      }
      w.WriteInt16(quantise(buffer[i]));
      assert buffer[..i + 1][..i] == buffer[..i];
      if i > 0 && YieldPeriod(o) == 0 {
        assert written == i + 1;
        assert w.written == header + SampleBytes(buffer[..written], quantise);
        return Raised(DivideByZero), Some(w.written);
      }
      i := i + 1;
    }
    assert written == i == |buffer|;
    assert w.written == header + SampleBytes(buffer[..written], quantise);
    return Returned(ExportResult(true, filePath)), Some(w.written);
  }

  /**
   * ToFileAsync: refuses a missing export and an empty mixdown before any file
   * is created, then writes the file. `mixed` is what `GetMixedAudioData` returned.
   */
  method ToFile(audioExport: Option<Options>, mixed: Option<seq<real>>, filePath: string,
                quantise: real -> Int16, fault: WriteFault)
    returns (outcome: Outcome<ExportResult>, file: Option<seq<byte>>)
    requires mixed.Some? ==> |mixed.value| < 0x8000_0000
    ensures audioExport.None? ==> outcome == Returned(ExportResult(false, NullExportMessage)) && file.None?
    ensures audioExport.Some? && (mixed.None? || mixed.value == []) ==>
              outcome == Returned(ExportResult(false, EmptyBufferMessage)) && file.None?
    ensures outcome.Returned? && outcome.value.success ==>
              audioExport.Some? && mixed.Some? && file == Some(WavFile(audioExport.value, mixed.value, quantise))
              && outcome.value.pathOrError == filePath
    ensures audioExport.Some? && mixed.Some? && mixed.value != [] ==>
              && (fault.OpenFault? ==> file.None? && outcome == Returned(ExportResult(false, HeaderErrorPrefix + fault.message)))
              && (!fault.OpenFault? ==> outcome == LoopOutcome(audioExport.value, filePath, |mixed.value|, fault))
              && (!fault.OpenFault? ==>
                    file == Some(EncodeHeader(HeaderFor(audioExport.value, |mixed.value|))
                                 + SampleBytes(mixed.value[..SamplesWritten(audioExport.value, |mixed.value|, fault)], quantise)))
  {
    if audioExport.None? {
      return Returned(ExportResult(false, NullExportMessage)), None;
    }
    if mixed.None? || |mixed.value| == 0 {
      return Returned(ExportResult(false, EmptyBufferMessage)), None;
    }
    outcome, file := WriteWavFile(audioExport.value, filePath, mixed.value, quantise, fault);
    if outcome.Returned? && outcome.value.success {
      assert mixed.value[..|mixed.value|] == mixed.value;
    }
  }
}
