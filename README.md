# Overture audio upload and WAV header, in Dafny

This project models the upload side of the Overture Audio Export package: a Unity
game exports a mixdown as a 16-bit PCM WAV file and hands the file to the web page
hosting it. It proves properties of that model.

- **Upload negotiation** (`Runtime/AudioSave.cs`, `Runtime/AudioSaveListener.cs`).
  - The process-wide state is `IsInitialized`, the tri-state `BridgeAvailable` and
    the request counter.
  - The first upload creates and registers the listener.
  - The Bridge protocol is negotiated by a handshake when its state is unknown.
  - The song goes through the Bridge when it is available. The upload falls back
    to the legacy entry point when the Bridge is unavailable or its save times out.
  - The local file is deleted afterwards.
  - The listener is a mailbox of properties, which the host page's callbacks fill
    and the reset methods clear.
- **WAV serialisation** (`AudioExport.Exporter.cs`, `Tests/BridgeTest.cs`).
  - The exporter derives the 44-byte canonical RIFF WAVE header with C#'s unchecked
    `int`/`short` arithmetic.
  - It writes the header through a `BinaryWriter`, then one `short` per sample.
  - The bridge test builds the same header in place in a zero-filled `byte[]`, with
    its own little-endian writers.
  - `GetWavDuration` reads the header back.
  - The header layout is that of the WAVE form in the Multimedia Programming
    Interface and Data Specifications 1.0: a `fmt ` chunk with format tag 1 (PCM),
    then the `data` chunk.

## How the model is built

- **Host waits.** Each host wait (handshake, Bridge save, legacy save) is given as
  the callbacks the page makes before the 15-second timeout, grouped by frame.
  - The C# loop checks the polled property once per frame. Every callback the page
    makes between two checks runs before the next check, and the listener keeps
    the last value each one writes.
  - `AudioSave.Await` checks the property, then runs the next frame's callbacks in
    order, until the property is set.
  - Running out of frames is the timeout.
- **Upload as a decision tree.** The upload is the pure function `AudioSave.Save`.
  - It returns the outcome: a result, or the `NullReferenceException` that escapes.
  - It returns the new state, the host and file-system calls in order, and the tier
    that answered.
- **Upload as imperative code.** The static class is the class
  `AudioSaveRuntime.AudioSaveState`.
  - Its fields are updated in place.
  - It holds the listener object, `SaveListener.AudioSaveListener`.
  - Each of its methods is proved equal to its pure counterpart. `HandleFile`
    agrees with `Save` in outcome, new state and calls, so every lemma about `Save`
    holds of the method.
- **Many uploads.** `SessionRuns` strings uploads and `ResetBridgeState` calls into
  runs, and proves what the shared state guarantees across them.
- **WAV files.** `WavFormat` is the header codec with its reader. The exporter
  (`Exporter`) and the bridge test (`BridgeTestWav`) are proved to produce its
  encoding.
  - The test's dummy file is proved to be a one-second file of silence.
  - That dummy file is exactly what the exporter makes of one second of stereo
    silence.

Where the code and its design description disagree, the model follows the code:

- A Bridge save that returns an explicit failure is final. The code returns it
  (`Runtime/AudioSave.cs:168-179`) and does not fall back to the legacy tier, and
  `BridgeAvailable` stays `true`. Only a timeout falls back.
- Progress notifications are sent inside the progress callback itself
  (`Runtime/AudioSaveListener.cs:106`), one per parsed reply. They are not sent
  once per polling tick.
- `CAN_EXPORT` is defined unconditionally (`Runtime/AudioSave.cs:1-3`), so only
  its branches are modelled.

The model keeps several behaviours of the code as written:

- A legacy reply that decodes to `null` makes `OnPlatformUploadResult(result)`
  throw a `NullReferenceException` after the file is deleted.
- When `rate * channels` wraps to 0, the periodic-yield check of the sample loop
  divides by zero at the second sample.
- The exporter always writes 16-bit samples, but it computes the size fields from
  `BitsPerSample`. `Exporter.SizeFieldsMatchBody` states exactly when those fields
  agree with the file.

## Model

| member | source | states |
|---|---|---|
| Numerics.Wrap32 | AudioExport.Exporter.cs:80-83 | unchecked `int` result: congruent to the exact value modulo 2^32, and equal to it when it fits |
| Numerics.Wrap16 | AudioExport.Exporter.cs:81 | the `(short)` cast: congruent modulo 2^16, and the identity on values that fit |
| Numerics.DivBy8 | AudioExport.Exporter.cs:80-82 | C#'s `bits / 8` rounds toward zero: the remainder has the sign of the dividend and is below 8 in size |
| Numerics.Wrap32Distinct | Runtime/AudioSave.cs:111 | two counter values fewer than 2^32 increments apart never coincide |
| Numerics.Wrap16OfWrap32 | AudioExport.Exporter.cs:81 | truncating the `int` product to `short` is truncating the exact product to 16 bits |
| LittleEndian.Int32RoundTrip | Runtime/AudioSave.cs:366 | `BitConverter.ToInt32` reads back every `int` that `BinaryWriter.Write(int)` wrote |
| LittleEndian.Int32Injective | Runtime/AudioSave.cs:366 | every 4-byte window is the encoding of the `int` read from it |
| LittleEndian.Int16RoundTrip | AudioExport.Exporter.cs:121 | every `short` written little-endian reads back unchanged |
| LittleEndian.Int16Injective | AudioExport.Exporter.cs:97-98 | every 2-byte window is the encoding of the `short` read from it |
| LittleEndian.ReadInt32At | Runtime/AudioSave.cs:366 | an encoded `int` at any offset of a longer buffer reads back at that offset |
| LittleEndian.ReadInt16At | AudioExport.Exporter.cs:93-98 | likewise for a `short` |
| Decimal.NatToString | Runtime/AudioSave.cs:111 | interpolated digits: non-empty, all digits, no leading zero |
| Decimal.IntToString | Runtime/AudioSave.cs:111 | the rendering has no `_`, and starts with `-` exactly for negatives |
| Decimal.ParseNatToString | Runtime/AudioSave.cs:111 | the digits parse back to the number |
| Decimal.ParseIntToString | Runtime/AudioSave.cs:111 | a rendered `int`/`long` parses back to itself |
| Decimal.IntToStringInjective | Runtime/AudioSave.cs:111 | distinct numbers render differently |
| RequestIds.NextCounter | Runtime/AudioSave.cs:111 | `++_requestCounter` adds one, and wraps from `int.MaxValue` to `int.MinValue` |
| RequestIds.Format | Runtime/AudioSave.cs:111 | every request id starts with `req_` |
| RequestIds.ParseFormat | Runtime/AudioSave.cs:111 | an id parses back to its counter and clock parts |
| RequestIds.FormatInjective | Runtime/AudioSave.cs:111 | two ids are equal only if both their counters and their clock parts are |
| RequestIds.CounterAfterWraps | Runtime/AudioSave.cs:111 | after n increments the counter is the start plus n, wrapped to 32 bits |
| RequestIds.CountersDistinct | Runtime/AudioSave.cs:111 | counters fewer than 2^32 increments apart are distinct |
| RequestIds.CountersIncrease | Runtime/AudioSave.cs:111 | until `int.MaxValue` is passed, the counter grows by exactly one per id |
| RequestIds.CounterAfterAdd | Runtime/AudioSave.cs:111 | a increments then b more are a + b increments |
| SaveListener.AfterHandshake | Runtime/AudioSaveListener.cs:68-84 | a handshake reply is always marked received; supported only if it parses and says so; a parsed reply stores its id, a failed parse keeps the old one |
| SaveListener.AfterProgress | Runtime/AudioSaveListener.cs:95-112 | a parsed progress reply overwrites id, percent and stage and nothing else; a failed parse changes nothing |
| SaveListener.AfterResult | Runtime/AudioSaveListener.cs:115-134 | a result is always marked received; a failed parse means failure with "Failed to parse result: " plus the message; a parsed one copies its fields; acknowledgement and progress fields untouched |
| SaveListener.DeliverAllAppend | Runtime/AudioSaveListener.cs:60-134 | callbacks delivered in two batches leave the mailbox they leave in one |
| SaveListener.NoticesDelivered | Runtime/AudioSaveListener.cs:95-112 | subscribers hear exactly one notice (percent / 100, stage) per parsed progress reply, in order |
| SaveListener.HandshakeStaysReceived | Runtime/AudioSaveListener.cs:68-84 | no callback clears a received handshake |
| SaveListener.ResultStaysReceived | Runtime/AudioSaveListener.cs:115-134 | no callback clears a received save result |
| SaveListener.LastHandshakeReply | Runtime/AudioSaveListener.cs:68-84 | the last handshake reply among some callbacks; none exactly when no callback is a handshake reply |
| SaveListener.LastReplyDecides | Runtime/AudioSaveListener.cs:68-84 | callbacks in a row leave the handshake slot as it was without a handshake reply; otherwise received, with supported decided by the last reply alone |
| SaveListener.ResultIgnoresRequestId | Runtime/AudioSaveListener.cs:115-126 | a result for another request id is taken exactly as the awaited one, and its id recorded |
| SaveListener.AudioSaveListener.constructor | Runtime/AudioSaveListener.cs:9-28 | a new listener: flags false, strings null, percent 0, no notices |
| SaveListener.AudioSaveListener.ResetHandshakeState | Runtime/AudioSaveListener.cs:38-43 | clears the three handshake properties and changes nothing else |
| SaveListener.AudioSaveListener.ResetSaveState | Runtime/AudioSaveListener.cs:45-57 | clears the ten save properties; handshake and legacy properties unchanged |
| SaveListener.AudioSaveListener.OnPlatformUploadResult | Runtime/AudioSaveListener.cs:60-65 | stores the JSON and clears `IsAwaiting`, nothing else |
| SaveListener.AudioSaveListener.OnBridgeHandshakeResult | Runtime/AudioSaveListener.cs:68-84 | the mailbox becomes `AfterHandshake` of the reply, nothing else changes |
| SaveListener.AudioSaveListener.OnBridgeSaveAck | Runtime/AudioSaveListener.cs:87-92 | sets the acknowledgement flag and records the id as given |
| SaveListener.AudioSaveListener.OnBridgeSaveProgress | Runtime/AudioSaveListener.cs:95-112 | the mailbox becomes `AfterProgress`, and one notice is appended iff the reply parsed |
| SaveListener.AudioSaveListener.OnBridgeSaveResult | Runtime/AudioSaveListener.cs:115-134 | the mailbox becomes `AfterResult` of the reply |
| SaveListener.AudioSaveListener.Receive | Runtime/AudioSaveListener.cs:59-134 | any host callback moves the mailbox as `Deliver` says |
| WavFormat.AsciiBytes | AudioExport.Exporter.cs:86 | `Encoding.ASCII.GetBytes` keeps the length and maps each ASCII character to its code |
| WavFormat.AsciiTags | AudioExport.Exporter.cs:86-101 | the four chunk identifiers encode to the tag bytes of the WAVE form |
| WavFormat.EncodeHeader | AudioExport.Exporter.cs:86-102 | the header is 44 bytes |
| WavFormat.RiffChunkAt | Tests/BridgeTest.cs:166-168 | "RIFF" at 0, the RIFF size at 4, "WAVE" at 8 |
| WavFormat.FmtChunkAt | Tests/BridgeTest.cs:171-178 | "fmt " at 12, 16 at 16, PCM at 20, channels, rate, byte rate, block align and bits at 22-34 |
| WavFormat.DataChunkAt | Tests/BridgeTest.cs:181-182 | "data" at 36, the data size at 40 |
| WavFormat.ParseEncodeHeader | AudioExport.Exporter.cs:86-102 | every field written is read back at its offset, whatever follows the header |
| WavFormat.EncodeParseHeader | AudioExport.Exporter.cs:86-102 | any header the reader accepts is the encoding of the fields it reads |
| WavFormat.WavDuration | Runtime/AudioSave.cs:361-372 | `GetWavDuration`: 0 below 44 bytes or for a zero byte rate, else the data bytes over the byte rate read at offset 28 |
| WavFormat.DurationOfEncoded | Runtime/AudioSave.cs:366-369 | for an encoded header, the duration is the body length over the declared byte rate |
| Exporter.HeaderFor | AudioExport.Exporter.cs:80-83 | the RIFF size is 36 plus the data size (wrapped); the sample rate is the option's |
| Exporter.SampleBytes | AudioExport.Exporter.cs:116-122 | two bytes per sample |
| Exporter.SampleAt | AudioExport.Exporter.cs:116-122 | sample k is the `short` at byte 2k |
| Exporter.ExportedFileLayout | AudioExport.Exporter.cs:69-139 | a finished export is 44 + 2n bytes; its header parses to the exporter's fields; each sample sits at 44 + 2k; its duration is 2n over the byte rate |
| Exporter.SizeFieldsMatchBody | AudioExport.Exporter.cs:82-121 | without overflow, the data and RIFF sizes match the file iff the buffer is empty or `BitsPerSample / 8` is 2 |
| Exporter.SixteenBitRates | AudioExport.Exporter.cs:80-81 | at 16 bits and without overflow, byte rate and block align are the PCM formulas |
| Exporter.SixteenBitSizes | AudioExport.Exporter.cs:82-83 | at 16 bits, data size 2n and RIFF size 36 + 2n |
| Exporter.SamplesWritten | AudioExport.Exporter.cs:116-133 | no more samples than the buffer; all of them unless a write fails or the yield divides by zero |
| Exporter.BinaryWriter.constructor | AudioExport.Exporter.cs:77-78 | a new stream is empty |
| Exporter.BinaryWriter.WriteBytes | AudioExport.Exporter.cs:86 | appends the bytes |
| Exporter.BinaryWriter.WriteInt32 | AudioExport.Exporter.cs:87 | appends the `int` little-endian |
| Exporter.BinaryWriter.WriteInt16 | AudioExport.Exporter.cs:93 | appends the `short` little-endian |
| Exporter.WriteHeader | AudioExport.Exporter.cs:80-102 | the sequence of writes appends exactly the encoding of the exporter's header fields |
| Exporter.WriteWavFile | AudioExport.Exporter.cs:69-140 | an open failure returns the header error and no file; otherwise the outcome is `LoopOutcome`, and the file is the header and the samples written before the loop stopped |
| Exporter.ToFile | AudioExport.Exporter.cs:41-67 | a null export or an empty mixdown fails with its message and writes no file; a present, non-empty mixdown gets exactly `WriteWavFile`'s outcome and file; a success returns the path and the complete `WavFile` |
| BridgeTestWav.StringBytes | Tests/BridgeTest.cs:198-202 | one byte per character: the low eight bits of its code |
| BridgeTestWav.StringBytesOfAscii | Tests/BridgeTest.cs:198-202 | for ASCII text the test's byte cast and `Encoding.ASCII` agree |
| BridgeTestWav.Splice | Tests/BridgeTest.cs:198-216 | an overwrite: the piece at its offsets, every other byte unchanged |
| BridgeTestWav.WriteString | Tests/BridgeTest.cs:198-202 | `buffer[offset + i]` becomes `(byte)value[i]`; no other byte changes |
| BridgeTestWav.ShiftMaskInt32 | Tests/BridgeTest.cs:204-210 | the four shift-and-mask bytes are the little-endian two's-complement encoding |
| BridgeTestWav.ShiftMaskInt16 | Tests/BridgeTest.cs:212-216 | likewise for the two bytes of a `short` |
| BridgeTestWav.WriteInt32 | Tests/BridgeTest.cs:204-210 | the value's four little-endian bytes at the offset; no other byte changes |
| BridgeTestWav.WriteInt16 | Tests/BridgeTest.cs:212-216 | the value's two little-endian bytes at the offset; no other byte changes |
| BridgeTestWav.Zeros | Tests/BridgeTest.cs:163 | a new array: n zero bytes |
| BridgeTestWav.HeaderAsWritten | Tests/BridgeTest.cs:165-182 | the header is its fields in the order the test writes them |
| BridgeTestWav.DummyHeaderAsWritten | Tests/BridgeTest.cs:165-182 | the pieces the test writes are the encoding of its fields |
| BridgeTestWav.SpliceAdjacent | Tests/BridgeTest.cs:165-182 | two adjacent writes are one write of both pieces |
| BridgeTestWav.SpliceOverZeros | Tests/BridgeTest.cs:163-183 | a header written over zeros leaves the header and then zeros |
| BridgeTestWav.WriteRiffChunk | Tests/BridgeTest.cs:165-168 | bytes 0-11 become "RIFF", size, "WAVE" |
| BridgeTestWav.WriteFmtChunk | Tests/BridgeTest.cs:170-178 | bytes 12-35 become the format chunk |
| BridgeTestWav.WriteDataChunk | Tests/BridgeTest.cs:180-182 | bytes 36-43 become "data" and the data size |
| BridgeTestWav.CreateDummyWavFile | Tests/BridgeTest.cs:143-196 | nothing when disabled or when the save fails; otherwise exactly the dummy file |
| BridgeTestWav.ThreeSplices | Tests/BridgeTest.cs:163-183 | the three chunk writes over zeros leave the three chunks, then zeros |
| BridgeTestWav.WritesMakeDummyWav | Tests/BridgeTest.cs:160-183 | the test's writes leave the encoded header of its fields followed by 176400 zeros |
| BridgeTestWav.DummyWavLayout | Tests/BridgeTest.cs:154-183 | 176444 bytes; the header parses to the test's fields; RIFF size is length - 8 and data size length - 44; all samples zero; lasts 1.0 s |
| BridgeTestWav.OneSecond | Tests/BridgeTest.cs:153-176 | 176400 bytes at byte rate 176400 last one second |
| BridgeTestWav.ExportedSilenceIsDummy | AudioExport.Exporter.cs:80-122 | exporting one second of 44100 Hz stereo silence gives the test's dummy file byte for byte |
| BridgeTestWav.SilentSamples | AudioExport.Exporter.cs:116-122 | silence is written as zero bytes |
| AudioSave.NewConfig | Runtime/AudioSave.cs:58-65 | a null tag array becomes empty and a null description the default text; other fields as given |
| AudioSave.PayloadTags | Runtime/AudioSave.cs:143 | the configured tags in order, then the game id |
| AudioSave.SongDataFor | Runtime/AudioSave.cs:139-153 | title is the override or "title - stamp"; tags are the payload tags; the file's bytes, size and duration |
| AudioSave.NoOccurrences | Runtime/AudioSave.cs:121-193 | no call of a kind counted iff none of that kind was made |
| AudioSave.OccurrencesAppend | Runtime/AudioSave.cs:121-193 | counts add over consecutive call logs |
| AudioSave.Await | Runtime/AudioSave.cs:221-230 | a wait reports arrival iff the polled property is set at its end, and ends at once if it already is |
| AudioSave.AwaitTimedOut | Runtime/AudioSave.cs:222-228 | a timed-out wait has run every frame, and the property was never set at a check |
| AudioSave.AwaitArrived | Runtime/AudioSave.cs:222-230 | an arrived wait stops at the first check that finds the property set, after a whole number of frames |
| AudioSave.Handshake | Runtime/AudioSave.cs:211-246 | one new id; the mailbox is that of the wait on a cleared handshake slot, and the Bridge is available iff a reply arrived and said supported; a timeout is unavailable |
| AudioSave.ReplyFrameEndsWait | Runtime/AudioSave.cs:221-235 | the frame that brings the first handshake reply ends the wait, and the last handshake reply of that frame decides whether the Bridge is supported |
| AudioSave.HandshakeFollowsReply | Runtime/AudioSave.cs:222-241 | the handshake reports the Bridge available iff the last handshake reply of the first frame that brings one parsed and said supported |
| AudioSave.LastReplyOfFrameWins | Runtime/AudioSave.cs:222-241 | a "supported" reply followed by a "not supported" reply in the same frame leaves the Bridge unavailable |
| AudioSave.BridgeVerdict | Runtime/AudioSave.cs:273-290 | success gives "Song saved via Bridge" and the song id; failure gives the error or "Bridge save failed", and no id |
| AudioSave.UnparsedResultFails | Runtime/AudioSave.cs:282-290 | an unparsable Bridge result is returned as a failure with the parser's message |
| AudioSave.BridgeSave | Runtime/AudioSave.cs:248-295 | one new id; no result (null) iff the wait timed out; otherwise the verdict on the result received; the mailbox is that of the wait on a cleared save slot |
| AudioSave.LegacyVerdict | Runtime/AudioSave.cs:309-336 | timeout message; decode error message; the decoded reply; `null` only for a reply that decodes to null |
| AudioSave.LegacySave | Runtime/AudioSave.cs:297-345 | sends the song once to the legacy entry point, addressed to the listener; waits with `IsAwaiting` set, and the result is `LegacyVerdict` of that wait |
| AudioSave.Finish | Runtime/AudioSave.cs:181-193 | the deletion is the last call; a result is returned; a null result raises `NullReferenceException` |
| AudioSave.Negotiate | Runtime/AudioSave.cs:155-160 | handshake (one call, next counter) iff the Bridge state is unknown; otherwise the known state and no call; with the state unknown, the result is the handshake's |
| AudioSave.NegotiateAfterInit | Runtime/AudioSave.cs:123-160 | initialising first does not change the negotiation |
| AudioSave.Transfer | Runtime/AudioSave.cs:162-179 | Bridge save iff available; legacy save iff the Bridge is unavailable or timed out; `BridgeAvailable` ends true iff the Bridge answered; no result only from the legacy tier |
| AudioSave.Save | Runtime/AudioSave.cs:121-193 | always initialised after; a missing file gives "File not found" with state and counter unchanged and no tier; otherwise the Bridge state ends known; an exception comes only from a null legacy reply |
| AudioSave.SaveInSteps | Runtime/AudioSave.cs:121-193 | initialise, negotiate, transfer and delete, applied in turn, give `Save` |
| AudioSave.SaveParts | Runtime/AudioSave.cs:155-193 | an existing file's calls are init, negotiation, transfer, deletion, in that order |
| AudioSave.SaveCallCounts | Runtime/AudioSave.cs:121-193 | init once iff not initialised; handshake iff unknown; Bridge save iff available; legacy iff the legacy tier answered; one deletion, last, iff the file exists |
| AudioSave.MissingFileSendsNothing | Runtime/AudioSave.cs:129-133 | "File not found"; no handshake, save or deletion; Bridge state and counter unchanged |
| AudioSave.UnavailableGoesLegacy | Runtime/AudioSave.cs:164-179 | without a Bridge: no Bridge save, one legacy save, its result, state ends false |
| AudioSave.BridgeTimeoutFallsBack | Runtime/AudioSave.cs:166-179 | a Bridge timeout: state becomes false, one Bridge save and one legacy save, whose result is returned |
| AudioSave.ReplyFrameChoosesTransport | Runtime/AudioSave.cs:156-179 | from an unknown state: one handshake, a Bridge save iff the handshake reply the wait ends on said supported, otherwise the legacy tier with the state false |
| AudioSave.BridgeResultIsFinal | Runtime/AudioSave.cs:166-179 | a received Bridge result, failure included, is returned; no legacy save; state stays true |
| AudioSave.DeleteFailureIgnored | Runtime/AudioSave.cs:181-190 | whether the deletion throws changes nothing observable |
| AudioSave.IdCarriesCounter | Runtime/AudioSave.cs:111 | the id sent carries the counter just incremented |
| AudioSave.SentIdsAppend | Runtime/AudioSave.cs:109-112 | ids sent add over consecutive call logs |
| AudioSave.NegotiatedIds | Runtime/AudioSave.cs:156-160 | the handshake sends one id, that of the next counter, iff it runs |
| AudioSave.BridgeSaveIds | Runtime/AudioSave.cs:253-258 | the Bridge save sends one id, that of the next counter |
| AudioSave.LegacyCallsHaveNoIds | Runtime/AudioSave.cs:307 | the legacy call carries no id |
| AudioSave.TransferIds | Runtime/AudioSave.cs:162-179 | the transfer advances the counter by the ids it sends, which carry the next counters |
| AudioSave.CountedIdsDistinct | Runtime/AudioSave.cs:109-112 | ids carrying successive counters, at most 2^32 of them, are pairwise different |
| AudioSave.ChainIds | Runtime/AudioSave.cs:109-112 | two runs of consecutive ids make one |
| AudioSave.SaveRequestIds | Runtime/AudioSave.cs:109-112 | each id a save sends advances the counter by one, and the ids carry successive counters |
| AudioSaveRuntime.AudioSaveState.constructor | Runtime/AudioSave.cs:74-78 | at start: not initialised, Bridge unknown, counter 0, no calls |
| AudioSaveRuntime.AudioSaveState.Initialize | Runtime/AudioSave.cs:94-107 | once only: creates the listener and registers it with the Bridge; a second call changes nothing |
| AudioSaveRuntime.AudioSaveState.GenerateRequestId | Runtime/AudioSave.cs:109-112 | the counter is incremented and the id carries the new value |
| AudioSaveRuntime.AudioSaveState.AwaitCallbacks | Runtime/AudioSave.cs:221-230 | the polling loop, running each frame's callbacks in an inner loop before the next check, ends with the mailbox and arrival `Await` gives |
| AudioSaveRuntime.AudioSaveState.TryHandshake | Runtime/AudioSave.cs:211-246 | does what `Handshake` says, to the listener, counter and calls |
| AudioSaveRuntime.AudioSaveState.TrySaveViaBridge | Runtime/AudioSave.cs:248-295 | does what `BridgeSave` says |
| AudioSaveRuntime.AudioSaveState.SaveViaLegacy | Runtime/AudioSave.cs:297-345 | does what `LegacySave` says; Bridge state and counter untouched |
| AudioSaveRuntime.AudioSaveState.NegotiateBridge | Runtime/AudioSave.cs:155-160 | does what `Negotiate` says |
| AudioSaveRuntime.AudioSaveState.TransferSong | Runtime/AudioSave.cs:162-179 | does what `Transfer` says |
| AudioSaveRuntime.AudioSaveState.HandleFile | Runtime/AudioSave.cs:121-209 | outcome, new state and calls are those of `Save`, so every lemma about `Save` holds of it |
| AudioSaveRuntime.AudioSaveState.ResetBridgeState | Runtime/AudioSave.cs:378-382 | the state becomes `ResetBridge` of the old one; nothing else changes |
| AudioSaveRuntime.ResetBridge | Runtime/AudioSave.cs:378-382 | Bridge unknown, all else kept; changes the state iff the Bridge was known, so twice is once |
| SessionRuns.StepRequestIds | Runtime/AudioSave.cs:109-112 | one action advances the counter by the ids it sends |
| SessionRuns.RunRequestIds | Runtime/AudioSave.cs:109-112 | over any run, the ids carry consecutive counters after the initial one, and the final counter is the last |
| SessionRuns.RunIdsDistinct | Runtime/AudioSave.cs:109-112 | within 2^32 ids, no id is sent twice, whatever the clock |
| SessionRuns.StepHandshakes | Runtime/AudioSave.cs:156-160 | a handshake only from an unknown state, which it leaves known |
| SessionRuns.RunHandshakes | Runtime/AudioSave.cs:156-160 | handshakes are at most one per reset, plus one if the run started unknown |
| SessionRuns.StepWithoutBridge | Runtime/AudioSave.cs:164-179 | an upload with the Bridge unavailable sends no handshake and no Bridge save, and keeps it unavailable |
| SessionRuns.UnavailableUntilReset | Runtime/AudioSave.cs:164-179 | once unavailable, no handshake or Bridge save until `ResetBridgeState` |
| SessionRuns.ResetForcesHandshake | Runtime/AudioSave.cs:378-382 | after a reset the next upload of an existing file handshakes |
| SessionRuns.StepInits | Runtime/AudioSave.cs:94-107 | initialisation is kept, and registration happens only when not initialised |
| SessionRuns.RunInits | Runtime/AudioSave.cs:94-107 | over any run the listener is registered at most once, and only if the run started uninitialised |

## Left out

- Timing. The 15-second timeouts, `Time.realtimeSinceStartup`, the one-second delay before the legacy save and the periodic `NextFrameAsync` yield are not modelled. A wait is the callbacks the host makes before it times out.
- Clock values. `DateTime.Now` in `GenerateFileName` and `GenerateTempFileName`, and the Unix milliseconds of request ids, are inputs (`Host.stamp`, `Host.handshakeMs`, `Host.saveMs`, the export's file path).
- JSON. `JsonConvert` and `JsonUtility` are not modelled. A callback's payload arrives already parsed, or as the parser's failure message. The legacy reply's decoding is an input function: a result, `null`, or an exception.
- The song payload is not serialised. `Req_SaveData` holds the file's bytes rather than their Base64 text.
- Host page calls (`DllImport`), `File.Exists`, `ReadAllBytes` and `Delete` are not modelled. They are recorded as `HostCall`s, and the file's presence and contents and whether deletion throws are inputs.
- GameObject and MonoBehaviour creation, `DontDestroyOnLoad` and `Debug.Log` have no observable effect here. `OnPlatformUploadResult` at `Runtime/AudioSave.cs:347-353` only logs, except for the null dereference it can raise.
- The `OnProgress` relay in `Initialize` is not modelled as a separate step. The listener's notices list what subscribers hear, and exceptions thrown by subscribers are not modelled.
- The `HandleFileAsync` overload with a callback (`Runtime/AudioSave.cs:114-119`) is not modelled. It only invokes the callback with the result.
- The editor-only branches under `#else` are not modelled, because `CAN_EXPORT` is always defined.
- Callbacks that arrive after a wait has ended are not modelled. They are those of the next wait, or are dropped.
- Null `Title` or `GameId` in `Config` are not modelled. Strings are never null in the model. A null tag array given to the constructor is the only null input modelled; a null `Config`, or `Tags` set to null afterwards, which throw at `Runtime/AudioSave.cs:141-143`, are not.
- WavFormat.WavDuration: the C# result is a `float`, modelled as an exact `real` quotient. `BitConverter` is assumed to be little-endian.
- Exporter.SampleBytes: the quantisation `(short)(x * 32767f)` is an opaque input function from a sample to a `short`. The float mixdown in `GetMixedAudioData` is not part of this model.
- Exporter.WriteWavFile: when the yield's `%` divides by zero, the exception escapes without `Dispose` being called on the writer or the stream. `file` is then what the writer received, not necessarily what is on disk.
- Exporter.WriteWavFile: a header failure is modelled only as the stream failing to open, with no file. A failure part-way through the header is not modelled. Buffers are assumed shorter than 2^31, as a C# array's length is.
- BridgeTestWav.CreateDummyWavFile: the file path and `File.WriteAllBytes` are not modelled; `writeSucceeds` says whether the save throws. The result is the bytes saved rather than the path.
- SaveListener.ProgressReply: the progress percentage and the `percent / 100` fraction are C# `float`s, modelled as exact `real`s.
- Decimal.IntToString: a negative counter is rendered with `-`. C# interpolation uses the current culture's `NegativeSign`, which is not modelled.
- BridgeTestWav.StringBytes, BridgeTestWav.CharByte and WavFormat.AsciiBytes index a string by Unicode scalar value. C# indexes UTF-16 code units, so text outside the Basic Multilingual Plane differs; the model's strings are ASCII tags.
- Concurrency between two overlapping `HandleFileAsync` calls is not modelled. Uploads run one after another.
