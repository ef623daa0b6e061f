/**
 * The upload front end of Runtime/AudioSave.cs: process-wide state (whether it
 * is initialised, whether the host's Bridge protocol is available, the request
 * counter), the handshake, the Bridge save with its fall-back to the legacy
 * save, and the result of `HandleFileAsync`.
 *
 * Every wait on the host is given as the callbacks the host makes before the
 * 15-second timeout: the wait ends as soon as the awaited property is set, and
 * times out when the callbacks run out first. The file system, the clock and
 * the JSON decoder of the legacy reply are inputs too (`Host`).
 */
module AudioSave {
  import opened Nullable
  import opened Numerics
  import opened Faults
  import opened WavFormat
  import opened RequestIds
  import opened SaveListener

  const DefaultDescription: string := "An original student composition."
  const ListenerName: string := "Audio Save Listener"
  const FileNotFoundMessage: string := "File not found"
  const BridgeSavedMessage: string := "Song saved via Bridge"
  const BridgeFailedMessage: string := "Bridge save failed"
  const LegacyTimeoutMessage: string := "Legacy save timed out"
  const LegacyDecodeErrorMessage: string := "Error deserializing upload result"

  /** `AudioSave.Config`, after its constructor has filled in the defaults. */
  datatype Config = Config(title: string, gameId: string, bpm: Int32, tags: seq<string>, description: string)

  /** The `Config` constructor: a null tag array becomes empty, a null description the default one. */
  function NewConfig(title: string, gameId: string, bpm: Int32, tags: Option<seq<string>>, description: Option<string>)
    : (c: Config)
    ensures c.title == title && c.gameId == gameId && c.bpm == bpm
    ensures tags.None? ==> c.tags == []
    ensures tags.Some? ==> c.tags == tags.value
    ensures description.None? ==> c.description == DefaultDescription
    ensures description.Some? ==> c.description == description.value
  {
    Config(title, gameId, bpm, tags.GetOr([]), description.GetOr(DefaultDescription))
  }

  /** The tags sent with a song: the configured ones, then the game id. */
  function PayloadTags(c: Config): (t: seq<string>)
    ensures |t| == |c.tags| + 1 && t[..|c.tags|] == c.tags && t[|c.tags|] == c.gameId
  {
    c.tags + [c.gameId]
  }

  /** `Req_SaveData`, with the file's bytes in place of their Base64 text. */
  datatype SongData = SongData(
    title: string,
    gameId: string,
    tags: seq<string>,
    bpm: Int32,
    description: string,
    audioData: seq<byte>,
    format: string,
    duration: real,
    fileSize: int,
    sampleRate: Int32,
    channels: Int32,
    isPublic: bool)

  /** `GenerateFileName`: the prefix and the local time stamp (`MMdd_HHmm`). */
  function FileName(prefix: string, stamp: string): string
  {
    prefix + " - " + stamp
  }

  /** The song record HandleFileAsync builds from the file and the configuration. */
  function SongDataFor(config: Config, overrideName: Option<string>, stamp: string, file: seq<byte>): (d: SongData)
    ensures overrideName.Some? ==> d.title == overrideName.value
    ensures overrideName.None? ==> d.title == config.title + " - " + stamp
    ensures d.tags == PayloadTags(config) && d.gameId == config.gameId
    ensures d.audioData == file && d.fileSize == |file| && d.duration == WavDuration(file)
  {
    SongData(overrideName.GetOr(FileName(config.title, stamp)), config.gameId, PayloadTags(config), config.bpm,
             config.description, file, "wav", WavDuration(file), |file|, 44100, 2, false)
  }

  /** `PlatformUploadResult`. */
  datatype UploadResult = UploadResult(success: bool, message: Option<string>, songId: Option<string>)

  /** What `JsonConvert.DeserializeObject` makes of the legacy reply. */
  datatype LegacyDecode = Decoded(result: UploadResult) | DecodedNull | DecodeThrew

  /** A call into the host page or the file system. */
  datatype HostCall =
    | BridgeInit(target: string)
    | BridgeHandshake(requestId: string)
    | BridgeSaveSong(requestId: string, song: SongData)
    | LegacySaveSong(song: SongData, target: string)
    | DeleteFile(path: string)

  datatype CallKind = InitKind | HandshakeKind | BridgeSaveKind | LegacySaveKind | DeleteKind

  function KindOf(c: HostCall): CallKind
  {
    match c
    case BridgeInit(_) => InitKind
    case BridgeHandshake(_) => HandshakeKind
    case BridgeSaveSong(_, _) => BridgeSaveKind
    case LegacySaveSong(_, _) => LegacySaveKind
    case DeleteFile(_) => DeleteKind
  }

  /** How many of `calls` are of kind `k`. */
  function Occurrences(calls: seq<HostCall>, k: CallKind): (n: nat)
    ensures n <= |calls|
  {
    if calls == [] then 0
    else Occurrences(calls[..|calls| - 1], k) + (if KindOf(calls[|calls| - 1]) == k then 1 else 0)
  }

  /** No call of kind `k` was made exactly when none of the calls has that kind. */
  lemma {:induction false} NoOccurrences(calls: seq<HostCall>, k: CallKind)
    ensures Occurrences(calls, k) == 0 <==> forall i :: 0 <= i < |calls| ==> KindOf(calls[i]) != k
  {
    if calls != [] {
      var init := calls[..|calls| - 1];
      NoOccurrences(init, k);
      assert forall i :: 0 <= i < |init| ==> init[i] == calls[i];
    }
  }

  lemma {:induction false} OccurrencesAppend(a: seq<HostCall>, b: seq<HostCall>, k: CallKind)
    ensures Occurrences(a + b, k) == Occurrences(a, k) + Occurrences(b, k)
  {
    if b == [] {
      assert a + b == a;
    } else {
      assert (a + b)[..|a + b| - 1] == a + b[..|b| - 1];
      OccurrencesAppend(a, b[..|b| - 1], k);
    }
  }

  /** What the environment does during one `HandleFileAsync` call. */
  datatype Host = Host(
    file: Option<seq<byte>>,                  // File.Exists and File.ReadAllBytes
    stamp: string,                            // the time stamp GenerateFileName uses
    handshakeMs: int,                         // the Unix time in ms when the handshake id is made
    handshakeEvents: seq<Frame>,              // callbacks during the handshake wait, frame by frame
    saveMs: int,                              // the Unix time in ms when the save id is made
    saveEvents: seq<Frame>,                   // callbacks during the Bridge save wait, frame by frame
    legacyEvents: seq<Frame>,                 // callbacks during the legacy save wait, frame by frame
    decode: Option<string> -> LegacyDecode,   // JsonConvert.DeserializeObject on the legacy reply
    deleteSucceeds: bool)                     // whether File.Delete throws

  /** The listener property a wait polls. */
  datatype Awaited = ForHandshake | ForSaveResult | ForUpload

  predicate Arrived(m: Mailbox, w: Awaited)
  {
    match w
    case ForHandshake => m.handshake.received
    case ForSaveResult => m.save.resultReceived
    case ForUpload => !m.legacy.awaiting
  }

  datatype Waited = Waited(mailbox: Mailbox, arrived: bool)

  /** The callbacks of a series of frames, in order. */
  function Flatten(frames: seq<Frame>): seq<Callback>
  {
    if frames == [] then [] else frames[0] + Flatten(frames[1..])
  }

  /**
   * One polling wait: the property is checked, and while it is not set, the
   * callbacks of the next frame run before it is checked again. The wait ends
   * when the property is set, or times out when the frames run out.
   */
  function Await(m: Mailbox, frames: seq<Frame>, w: Awaited): (r: Waited)
    ensures r.arrived <==> Arrived(r.mailbox, w)
    ensures Arrived(m, w) ==> r == Waited(m, true)
    decreases |frames|
  {
    if Arrived(m, w) then Waited(m, true)
    else if frames == [] then Waited(m, false)
    else Await(DeliverAll(m, frames[0]), frames[1..], w)
  }

  /** The first `j` frames after the first are the first `j + 1` frames without the first. */
  lemma FlattenPrefix(frames: seq<Frame>, j: nat)
    requires 0 < j <= |frames|
    ensures Flatten(frames[..j]) == frames[0] + Flatten(frames[1..][..j - 1])
  {
    assert frames[..j][0] == frames[0];
    assert frames[..j][1..] == frames[1..][..j - 1];
  }

  /** A wait that times out has taken every frame, and the property was never set at a check. */
  lemma {:induction false} AwaitTimedOut(m: Mailbox, frames: seq<Frame>, w: Awaited)
    requires !Await(m, frames, w).arrived
    ensures Await(m, frames, w).mailbox == DeliverAll(m, Flatten(frames))
    ensures forall j :: 0 <= j <= |frames| ==> !Arrived(DeliverAll(m, Flatten(frames[..j])), w)
    decreases |frames|
  {
    assert frames[..0] == [];
    if frames != [] {
      var rest := frames[1..];
      AwaitTimedOut(DeliverAll(m, frames[0]), rest, w);
      DeliverAllAppend(m, frames[0], Flatten(rest));
      forall j | 0 <= j <= |frames|
        ensures !Arrived(DeliverAll(m, Flatten(frames[..j])), w)
      {
        if j > 0 {
          FlattenPrefix(frames, j);
          DeliverAllAppend(m, frames[0], Flatten(rest[..j - 1]));
        }
      }
    }
  }

  /**
   * A wait that ends because the property is set stops at the first check
   * that finds it set: the mailbox is that of the first `k` frames, and no
   * earlier check found the property set.
   */
  lemma {:induction false} AwaitArrived(m: Mailbox, frames: seq<Frame>, w: Awaited) returns (k: nat)
    requires Await(m, frames, w).arrived
    ensures k <= |frames| && Await(m, frames, w).mailbox == DeliverAll(m, Flatten(frames[..k]))
    ensures forall j :: 0 <= j < k ==> !Arrived(DeliverAll(m, Flatten(frames[..j])), w)
    decreases |frames|
  {
    assert frames[..0] == [];
    if Arrived(m, w) {
      k := 0;
    } else {
      var rest := frames[1..];
      var k' := AwaitArrived(DeliverAll(m, frames[0]), rest, w);
      k := k' + 1;
      FlattenPrefix(frames, k);
      DeliverAllAppend(m, frames[0], Flatten(rest[..k']));
      forall j | 0 <= j < k
        ensures !Arrived(DeliverAll(m, Flatten(frames[..j])), w)
      {
        if j > 0 {
          FlattenPrefix(frames, j);
          DeliverAllAppend(m, frames[0], Flatten(rest[..j - 1]));
        }
      }
    }
  }

  /** The process-wide state, with the listener's mailbox (a fresh one before initialisation). */
  datatype Session = Session(initialized: bool, bridge: Option<bool>, counter: Int32, mailbox: Mailbox)

  function RequestIdText(counter: Int32, ms: int): string
  {
    Format(RequestId(counter, ms))
  }

  datatype HandshakeStep = HandshakeStep(available: bool, mailbox: Mailbox, counter: Int32, calls: seq<HostCall>)

  /**
   * TryHandshakeAsync: clears the handshake properties, sends a new request id,
   * and waits; the Bridge is available only if a reply arrives and says it is
   * supported.
   */
  function Handshake(m: Mailbox, counter: Int32, ms: int, events: seq<Frame>): (r: HandshakeStep)
    ensures r.counter == NextCounter(counter)
    ensures r.calls == [BridgeHandshake(RequestIdText(r.counter, ms))]
    ensures r.available ==> r.mailbox.handshake.received && r.mailbox.handshake.supported
    ensures !Await(m.(handshake := NoHandshake), events, ForHandshake).arrived ==> !r.available
    ensures var w := Await(m.(handshake := NoHandshake), events, ForHandshake);
            r.mailbox == w.mailbox && (r.available <==> w.arrived && w.mailbox.handshake.supported)
  {
    var next := NextCounter(counter);
    var w := Await(m.(handshake := NoHandshake), events, ForHandshake);
    HandshakeStep(w.arrived && w.mailbox.handshake.supported, w.mailbox, next, [BridgeHandshake(RequestIdText(next, ms))])
  }

  /**
   * The frame that brings the first handshake reply ends the handshake wait,
   * and the last handshake reply of that frame decides whether the Bridge is
   * supported: every callback of a frame runs before the property is checked.
   */
  lemma {:induction false} ReplyFrameEndsWait(m: Mailbox, pre: seq<Frame>, frame: Frame,
                                               reply: Parsed<HandshakeReply>, rest: seq<Frame>)
    requires !m.handshake.received
    requires forall i :: 0 <= i < |pre| ==> LastHandshakeReply(pre[i]).None?
    requires LastHandshakeReply(frame) == Some(reply)
    ensures var w := Await(m, pre + [frame] + rest, ForHandshake);
            w.arrived && (w.mailbox.handshake.supported <==> reply.Parsed? && reply.value.supported)
    decreases |pre|
  {
    var frames := pre + [frame] + rest;
    if pre == [] {
      assert frames[0] == frame && frames[1..] == rest;
      LastReplyDecides(m, frame);
    } else {
      assert frames[0] == pre[0];
      assert frames[1..] == pre[1..] + [frame] + rest;
      LastReplyDecides(m, pre[0]);
      ReplyFrameEndsWait(DeliverAll(m, pre[0]), pre[1..], frame, reply, rest);
    }
  }

  /**
   * The handshake finds the Bridge available exactly when the last handshake
   * reply of the first frame that brings one says it is supported.
   */
  lemma HandshakeFollowsReply(m: Mailbox, counter: Int32, ms: int,
                              pre: seq<Frame>, frame: Frame, reply: Parsed<HandshakeReply>, rest: seq<Frame>)
    requires forall i :: 0 <= i < |pre| ==> LastHandshakeReply(pre[i]).None?
    requires LastHandshakeReply(frame) == Some(reply)
    ensures Handshake(m, counter, ms, pre + [frame] + rest).available <==> reply.Parsed? && reply.value.supported
  {
    ReplyFrameEndsWait(m.(handshake := NoHandshake), pre, frame, reply, rest);
  }

  /** Two handshake replies in one frame, "supported" then "not supported": the Bridge is unavailable. */
  lemma LastReplyOfFrameWins(m: Mailbox, counter: Int32, ms: int, id: Option<string>, rest: seq<Frame>)
    ensures var frame := [BridgeHandshakeReply(Parsed(HandshakeReply(true, id))),
                          BridgeHandshakeReply(Parsed(HandshakeReply(false, id)))];
            !Handshake(m, counter, ms, [frame] + rest).available
  {
    var frame := [BridgeHandshakeReply(Parsed(HandshakeReply(true, id))),
                  BridgeHandshakeReply(Parsed(HandshakeReply(false, id)))];
    assert LastHandshakeReply(frame) == Some(Parsed(HandshakeReply(false, id)));
    assert [] + [frame] + rest == [frame] + rest;
    HandshakeFollowsReply(m, counter, ms, [], frame, Parsed(HandshakeReply(false, id)), rest);
  }

  /** The result TrySaveViaBridgeAsync builds from a save result that has arrived. */
  function BridgeVerdict(s: SaveSlot): (r: UploadResult)
    ensures r.success == s.resultSuccess
    ensures r.success ==> r.message == Some(BridgeSavedMessage) && r.songId == s.resultSongId
    ensures !r.success ==> r.songId == None
                           && (s.resultError.Some? ==> r.message == s.resultError)
                           && (s.resultError.None? ==> r.message == Some(BridgeFailedMessage))
  {
    if s.resultSuccess then UploadResult(true, Some(BridgeSavedMessage), s.resultSongId)
    else UploadResult(false, Some(s.resultError.GetOr(BridgeFailedMessage)), None)
  }

  /** A Bridge save result whose JSON does not parse fails with the parser's message. */
  lemma UnparsedResultFails(s: SaveSlot, message: string)
    ensures BridgeVerdict(AfterResult(s, ParseFailed(message)))
            == UploadResult(false, Some(ParseResultPrefix + message), None)
  {
  }

  datatype BridgeStep = BridgeStep(result: Option<UploadResult>, mailbox: Mailbox, counter: Int32, calls: seq<HostCall>)

  /**
   * TrySaveViaBridgeAsync: clears the save properties, sends the song under a
   * new request id, and waits for a result; `None` (null) only on timeout.
   */
  function BridgeSave(m: Mailbox, counter: Int32, ms: int, song: SongData, events: seq<Frame>): (r: BridgeStep)
    ensures r.counter == NextCounter(counter)
    ensures r.calls == [BridgeSaveSong(RequestIdText(r.counter, ms), song)]
    ensures r.result.None? <==> !Await(m.(save := NoSave), events, ForSaveResult).arrived
    ensures r.result.Some? ==> r.result.value == BridgeVerdict(r.mailbox.save) && r.mailbox.save.resultReceived
    ensures r.mailbox == Await(m.(save := NoSave), events, ForSaveResult).mailbox
  {
    var next := NextCounter(counter);
    var w := Await(m.(save := NoSave), events, ForSaveResult);
    BridgeStep(if w.arrived then Some(BridgeVerdict(w.mailbox.save)) else None, w.mailbox, next,
               [BridgeSaveSong(RequestIdText(next, ms), song)])
  }

  datatype LegacyStep = LegacyStep(result: Option<UploadResult>, mailbox: Mailbox, calls: seq<HostCall>)

  /**
   * The result SaveViaLegacyAsync returns once its wait is over: a timeout and
   * an exception while decoding are failures with their own messages, a decoded
   * reply is returned as it is, and a decoded `null` is passed on as `None`.
   */
  function LegacyVerdict(w: Waited, decode: Option<string> -> LegacyDecode): (r: Option<UploadResult>)
    ensures !w.arrived ==> r == Some(UploadResult(false, Some(LegacyTimeoutMessage), None))
    ensures r.None? <==> w.arrived && decode(w.mailbox.legacy.uploadResultJson).DecodedNull?
    ensures w.arrived && decode(w.mailbox.legacy.uploadResultJson).DecodeThrew?
            ==> r == Some(UploadResult(false, Some(LegacyDecodeErrorMessage), None))
    ensures w.arrived && decode(w.mailbox.legacy.uploadResultJson).Decoded?
            ==> r == Some(decode(w.mailbox.legacy.uploadResultJson).result)
  {
    if !w.arrived then Some(UploadResult(false, Some(LegacyTimeoutMessage), None))
    else
      match decode(w.mailbox.legacy.uploadResultJson)
      case Decoded(v) => Some(v)
      case DecodedNull => None
      case DecodeThrew => Some(UploadResult(false, Some(LegacyDecodeErrorMessage), None))
  }

  /** SaveViaLegacyAsync: marks the listener as awaiting, sends the song to the legacy entry point, and waits. */
  function LegacySave(m: Mailbox, song: SongData, events: seq<Frame>, decode: Option<string> -> LegacyDecode)
    : (r: LegacyStep)
    ensures r.calls == [LegacySaveSong(song, ListenerName)]
    ensures var w := Await(m.(legacy := m.legacy.(awaiting := true)), events, ForUpload);
            r.mailbox == w.mailbox && r.result == LegacyVerdict(w, decode)
  {
    var w := Await(m.(legacy := m.legacy.(awaiting := true)), events, ForUpload);
    LegacyStep(LegacyVerdict(w, decode), w.mailbox, [LegacySaveSong(song, ListenerName)])
  }

  /** Which transport produced the result. */
  datatype Tier = NoTier | BridgeTier | LegacyTier

  datatype SaveStep = SaveStep(outcome: Outcome<UploadResult>, after: Session, calls: seq<HostCall>, tier: Tier)

  /** Deleting the file, then `OnPlatformUploadResult(result)`, which dereferences the result. */
  function Finish(result: Option<UploadResult>, after: Session, calls: seq<HostCall>, tier: Tier, path: string)
    : (step: SaveStep)
    ensures step.calls == calls + [DeleteFile(path)]
    ensures result.Some? ==> step.outcome == Returned(result.value)
    ensures result.None? ==> step.outcome == Raised(NullReference)
  {
    SaveStep(if result.Some? then Returned(result.value) else Raised(NullReference), after, calls + [DeleteFile(path)], tier)
  }

  /** The calls Initialize makes, if the state is not yet initialised. */
  function InitCalls(s: Session): seq<HostCall>
  {
    Opt(BridgeInit(ListenerName), !s.initialized)
  }

  /** A call that is made only when `send` holds. */
  function Opt(c: HostCall, send: bool): seq<HostCall>
  {
    if send then [c] else []
  }

  /** The listener's mailbox once Initialize has run. */
  function MailboxOf(s: Session): Mailbox
  {
    if s.initialized then s.mailbox else FreshMailbox
  }

  /** The handshake if the Bridge state is unknown; otherwise the known state, with no call. */
  function Negotiate(s: Session, host: Host): (r: HandshakeStep)
    ensures s.bridge.Some? ==> r.available == s.bridge.value && r.counter == s.counter
    ensures s.bridge.None? ==> r.counter == NextCounter(s.counter)
    ensures r.calls == Opt(BridgeHandshake(RequestIdText(r.counter, host.handshakeMs)), s.bridge.None?)
    ensures s.bridge.None? ==> r == Handshake(MailboxOf(s), s.counter, host.handshakeMs, host.handshakeEvents)
    ensures s.bridge.Some? ==> r.mailbox == MailboxOf(s)
  {
    if s.bridge.None? then Handshake(MailboxOf(s), s.counter, host.handshakeMs, host.handshakeEvents)
    else HandshakeStep(s.bridge.value, MailboxOf(s), s.counter, [])
  }

  /** Initialising first does not change what the negotiation does. */
  lemma NegotiateAfterInit(s: Session, host: Host)
    ensures Negotiate(s.(initialized := true, mailbox := MailboxOf(s)), host) == Negotiate(s, host)
  {
  }

  datatype TransferStep = TransferStep(result: Option<UploadResult>, after: Session, calls: seq<HostCall>, tier: Tier)

  /**
   * The transfer once the Bridge state is known: the Bridge save if the Bridge
   * is available, then the legacy save if the Bridge is unavailable or its
   * save timed out, in which case the Bridge is marked unavailable.
   */
  function Transfer(k: Session, song: SongData, host: Host): (t: TransferStep)
    requires k.bridge.Some?
    ensures t.tier != NoTier && t.after.bridge == Some(t.tier == BridgeTier)
    ensures t.result.None? ==> t.tier == LegacyTier
    ensures t.after.initialized == k.initialized
    ensures !k.bridge.value ==> t.tier == LegacyTier && t.after.counter == k.counter
    ensures t.calls == Opt(BridgeSaveSong(RequestIdText(NextCounter(k.counter), host.saveMs), song), k.bridge.value)
                       + Opt(LegacySaveSong(song, ListenerName), t.tier == LegacyTier)
  {
    if k.bridge.value then
      var bs := BridgeSave(k.mailbox, k.counter, host.saveMs, song, host.saveEvents);
      if bs.result.Some? then
        TransferStep(bs.result, k.(bridge := Some(true), counter := bs.counter, mailbox := bs.mailbox), bs.calls, BridgeTier)
      else
        var ls := LegacySave(bs.mailbox, song, host.legacyEvents, host.decode);
        TransferStep(ls.result, k.(bridge := Some(false), counter := bs.counter, mailbox := ls.mailbox),
                     bs.calls + ls.calls, LegacyTier)
    else
      var ls := LegacySave(k.mailbox, song, host.legacyEvents, host.decode);
      TransferStep(ls.result, k.(mailbox := ls.mailbox), ls.calls, LegacyTier)
  }

  /** The session the transfer starts from: initialised, with the Bridge state the negotiation left. */
  function Negotiated(hs: HandshakeStep): Session
  {
    Session(true, Some(hs.available), hs.counter, hs.mailbox)
  }

  /**
   * HandleFileAsync, as the decision tree it runs: initialise; stop if the file
   * is missing; handshake if the Bridge state is unknown; transfer; delete the
   * file.
   */
  function Save(s: Session, path: string, config: Config, overrideName: Option<string>, host: Host): (step: SaveStep)
    ensures step.after.initialized
    ensures host.file.None? ==>
              && step.outcome == Returned(UploadResult(false, Some(FileNotFoundMessage), None))
              && step.after.bridge == s.bridge && step.after.counter == s.counter
              && step.calls == InitCalls(s) && step.tier == NoTier
    ensures host.file.Some? ==> step.after.bridge.Some? && step.tier != NoTier
    ensures step.outcome.Raised? ==> step.tier == LegacyTier && step.outcome.exception == NullReference
  {
    if host.file.None? then
      SaveStep(Returned(UploadResult(false, Some(FileNotFoundMessage), None)),
               Session(true, s.bridge, s.counter, MailboxOf(s)), InitCalls(s), NoTier)
    else
      var hs := Negotiate(s, host);
      var t := Transfer(Negotiated(hs), SongOf(config, overrideName, host), host);
      Finish(t.result, t.after, InitCalls(s) + hs.calls + t.calls, t.tier, path)
  }

  /**
   * Save, step by step: initialising gives `s1` and appends to the call log
   * `log0`; negotiating gives `s2`, transferring gives `s3` and `result`;
   * deleting the file appends the last call. `log3` is the log before the deletion.
   */
  lemma SaveInSteps(s: Session, path: string, config: Config, overrideName: Option<string>, host: Host,
                    log0: seq<HostCall>, s1: Session, log1: seq<HostCall>, s2: Session, log2: seq<HostCall>,
                    result: Option<UploadResult>, s3: Session, log3: seq<HostCall>)
    requires host.file.Some?
    requires s1 == s.(initialized := true, mailbox := MailboxOf(s)) && log1 == log0 + InitCalls(s)
    requires var hs := Negotiate(s1, host); s2 == Negotiated(hs) && log2 == log1 + hs.calls
    requires var t := Transfer(s2, SongOf(config, overrideName, host), host);
             s3 == t.after && result == t.result && log3 == log2 + t.calls
    ensures var step := Save(s, path, config, overrideName, host);
            && step.outcome == (if result.Some? then Returned(result.value) else Raised(NullReference))
            && step.after == s3 && log3 + [DeleteFile(path)] == log0 + step.calls
  {
    NegotiateAfterInit(s, host);
    var hs := Negotiate(s, host);
    var t := Transfer(Negotiated(hs), SongOf(config, overrideName, host), host);
    SaveParts(s, path, config, overrideName, host);
    Regroup(log0, InitCalls(s), hs.calls, t.calls, [DeleteFile(path)]);
  }

  /** Appending the parts of a call log one by one appends their concatenation. */
  lemma Regroup(log: seq<HostCall>, a: seq<HostCall>, b: seq<HostCall>, c: seq<HostCall>, d: seq<HostCall>)
    ensures log + a + b + c + d == log + (a + b + c + d)
  {
  }

  /** The song HandleFileAsync sends for an existing file. */
  function SongOf(config: Config, overrideName: Option<string>, host: Host): SongData
    requires host.file.Some?
  {
    SongDataFor(config, overrideName, host.stamp, host.file.value)
  }

  /**
   * The host calls of one HandleFileAsync, by kind: Initialize's call when not
   * yet initialised; for an existing file, the handshake exactly when the
   * Bridge state was unknown, a Bridge save exactly when the Bridge is
   * available, a legacy save exactly when the legacy tier answers, and one
   * deletion, last of all.
   */
  lemma SaveCallCounts(s: Session, path: string, config: Config, overrideName: Option<string>, host: Host)
    ensures var step := Save(s, path, config, overrideName, host);
            Occurrences(step.calls, InitKind) == (if s.initialized then 0 else 1)
    ensures var step := Save(s, path, config, overrideName, host);
            && Occurrences(step.calls, HandshakeKind) == (if host.file.Some? && s.bridge.None? then 1 else 0)
            && Occurrences(step.calls, BridgeSaveKind) == (if host.file.Some? && Negotiate(s, host).available then 1 else 0)
            && Occurrences(step.calls, LegacySaveKind) == (if step.tier == LegacyTier then 1 else 0)
    ensures var step := Save(s, path, config, overrideName, host);
            && Occurrences(step.calls, DeleteKind) == (if host.file.Some? then 1 else 0)
            && (host.file.Some? ==> step.calls[|step.calls| - 1] == DeleteFile(path))
  {
    if host.file.None? {
      forall k: CallKind
        ensures Occurrences(InitCalls(s), k) == if !s.initialized && k == InitKind then 1 else 0
      {
        OptOccurrences(BridgeInit(ListenerName), !s.initialized, k);
      }
    } else {
      var hs := Negotiate(s, host);
      var song := SongOf(config, overrideName, host);
      var t := Transfer(Negotiated(hs), song, host);
      SaveParts(s, path, config, overrideName, host);
      CallsOfSave(InitCalls(s) + hs.calls + t.calls + [DeleteFile(path)], !s.initialized,
                  RequestIdText(hs.counter, host.handshakeMs), s.bridge.None?,
                  RequestIdText(NextCounter(hs.counter), host.saveMs), song, hs.available, t.tier == LegacyTier, path);
    }
  }

  /** The calls of a save, by kind, from the order they are made in. */
  lemma CallsOfSave(calls: seq<HostCall>, init: bool, handshakeId: string, handshake: bool,
                    saveId: string, song: SongData, bridge: bool, legacy: bool, path: string)
    requires calls == Opt(BridgeInit(ListenerName), init) + Opt(BridgeHandshake(handshakeId), handshake)
                      + (Opt(BridgeSaveSong(saveId, song), bridge) + Opt(LegacySaveSong(song, ListenerName), legacy))
                      + [DeleteFile(path)]
    ensures Occurrences(calls, InitKind) == (if init then 1 else 0)
    ensures Occurrences(calls, HandshakeKind) == (if handshake then 1 else 0)
    ensures Occurrences(calls, BridgeSaveKind) == (if bridge then 1 else 0)
    ensures Occurrences(calls, LegacySaveKind) == (if legacy then 1 else 0)
    ensures Occurrences(calls, DeleteKind) == 1 && calls[|calls| - 1] == DeleteFile(path)
  {
    var a, b, c, d, e := BridgeInit(ListenerName), BridgeHandshake(handshakeId), BridgeSaveSong(saveId, song),
                         LegacySaveSong(song, ListenerName), DeleteFile(path);
    CountsOfShape(calls, a, init, b, handshake, c, bridge, d, legacy, e, InitKind);
    CountsOfShape(calls, a, init, b, handshake, c, bridge, d, legacy, e, HandshakeKind);
    CountsOfShape(calls, a, init, b, handshake, c, bridge, d, legacy, e, BridgeSaveKind);
    CountsOfShape(calls, a, init, b, handshake, c, bridge, d, legacy, e, LegacySaveKind);
    CountsOfShape(calls, a, init, b, handshake, c, bridge, d, legacy, e, DeleteKind);
  }

  /** Optional calls of four kinds, then one more call, counted by kind. */
  lemma CountsOfShape(calls: seq<HostCall>, a: HostCall, sendA: bool, b: HostCall, sendB: bool,
                      c: HostCall, sendC: bool, d: HostCall, sendD: bool, e: HostCall, k: CallKind)
    requires calls == Opt(a, sendA) + Opt(b, sendB) + (Opt(c, sendC) + Opt(d, sendD)) + [e]
    ensures Occurrences(calls, k)
            == (if sendA && KindOf(a) == k then 1 else 0) + (if sendB && KindOf(b) == k then 1 else 0)
               + (if sendC && KindOf(c) == k then 1 else 0) + (if sendD && KindOf(d) == k then 1 else 0)
               + (if KindOf(e) == k then 1 else 0)
  {
    OccurrencesOfFour(Opt(a, sendA), Opt(b, sendB), Opt(c, sendC) + Opt(d, sendD), [e], k);
    OccurrencesAppend(Opt(c, sendC), Opt(d, sendD), k);
    OptOccurrences(a, sendA, k);
    OptOccurrences(b, sendB, k);
    OptOccurrences(c, sendC, k);
    OptOccurrences(d, sendD, k);
    OccurrencesOfOne(e, k);
  }

  lemma OptOccurrences(c: HostCall, send: bool, k: CallKind)
    ensures Occurrences(Opt(c, send), k) == if send && KindOf(c) == k then 1 else 0
  {
    if send {
      OccurrencesOfOne(c, k);
    }
  }

  /** An existing file's save is initialisation, negotiation, transfer and deletion, in that order. */
  lemma SaveParts(s: Session, path: string, config: Config, overrideName: Option<string>, host: Host)
    requires host.file.Some?
    ensures var hs := Negotiate(s, host);
            var t := Transfer(Negotiated(hs), SongOf(config, overrideName, host), host);
            var step := Save(s, path, config, overrideName, host);
            && step.calls == InitCalls(s) + hs.calls + t.calls + [DeleteFile(path)]
            && step.after == t.after && step.tier == t.tier
            && step.outcome == (if t.result.Some? then Returned(t.result.value) else Raised(NullReference))
  {
  }

  /**
   * A missing file: "File not found", and nothing is sent, saved or deleted;
   * the Bridge state and the counter are as they were.
   */
  lemma MissingFileSendsNothing(s: Session, path: string, config: Config, overrideName: Option<string>, host: Host)
    requires host.file.None?
    ensures var step := Save(s, path, config, overrideName, host);
            && step.outcome == Returned(UploadResult(false, Some(FileNotFoundMessage), None))
            && step.after == Session(true, s.bridge, s.counter, MailboxOf(s))
            && forall k :: k != InitKind ==> Occurrences(step.calls, k) == 0
  {
    SaveCallCounts(s, path, config, overrideName, host);
  }

  /**
   * No Bridge (known unavailable, or the handshake timed out or said no): no
   * Bridge save is sent, the legacy save answers, and the state ends `false`.
   */
  lemma UnavailableGoesLegacy(s: Session, path: string, config: Config, overrideName: Option<string>, host: Host)
    requires host.file.Some? && !Negotiate(s, host).available
    ensures var step := Save(s, path, config, overrideName, host);
            var ls := LegacySave(Negotiate(s, host).mailbox, SongOf(config, overrideName, host), host.legacyEvents, host.decode);
            && step.tier == LegacyTier && step.after.bridge == Some(false)
            && Occurrences(step.calls, BridgeSaveKind) == 0 && Occurrences(step.calls, LegacySaveKind) == 1
            && (ls.result.Some? ==> step.outcome == Returned(ls.result.value))
  {
    SaveCallCounts(s, path, config, overrideName, host);
  }

  /** The Bridge save an existing file's upload sends once the negotiation says the Bridge is available. */
  function BridgeAttempt(s: Session, config: Config, overrideName: Option<string>, host: Host): BridgeStep
    requires host.file.Some?
  {
    var hs := Negotiate(s, host);
    BridgeSave(hs.mailbox, hs.counter, host.saveMs, SongOf(config, overrideName, host), host.saveEvents)
  }

  /**
   * A Bridge save that times out: the state becomes `false` and the legacy
   * save, sent after it, answers instead.
   */
  lemma BridgeTimeoutFallsBack(s: Session, path: string, config: Config, overrideName: Option<string>, host: Host)
    requires host.file.Some? && Negotiate(s, host).available
    requires BridgeAttempt(s, config, overrideName, host).result.None?
    ensures var step := Save(s, path, config, overrideName, host);
            var bs := BridgeAttempt(s, config, overrideName, host);
            var ls := LegacySave(bs.mailbox, SongOf(config, overrideName, host), host.legacyEvents, host.decode);
            && step.tier == LegacyTier && step.after.bridge == Some(false)
            && Occurrences(step.calls, BridgeSaveKind) == 1 && Occurrences(step.calls, LegacySaveKind) == 1
            && (ls.result.Some? ==> step.outcome == Returned(ls.result.value))
  {
    SaveCallCounts(s, path, config, overrideName, host);
  }

  /**
   * A Bridge save result that arrives is final, failure included: no legacy
   * save, the state stays `true`, and the result is the Bridge's verdict.
   */
  lemma BridgeResultIsFinal(s: Session, path: string, config: Config, overrideName: Option<string>, host: Host)
    requires host.file.Some? && Negotiate(s, host).available
    requires BridgeAttempt(s, config, overrideName, host).result.Some?
    ensures var step := Save(s, path, config, overrideName, host);
            var bs := BridgeAttempt(s, config, overrideName, host);
            && step.tier == BridgeTier && step.after.bridge == Some(true)
            && step.outcome == Returned(BridgeVerdict(bs.mailbox.save))
            && Occurrences(step.calls, LegacySaveKind) == 0
  {
    SaveCallCounts(s, path, config, overrideName, host);
  }

  /**
   * From an unknown Bridge state, the handshake reply the wait ends on (the
   * last one of the first frame that brings one) chooses the transport: one
   * handshake, then a Bridge save exactly when that reply said supported, and
   * the legacy save directly otherwise.
   */
  lemma ReplyFrameChoosesTransport(s: Session, path: string, config: Config, overrideName: Option<string>, host: Host,
                                   pre: seq<Frame>, frame: Frame, reply: Parsed<HandshakeReply>, rest: seq<Frame>)
    requires host.file.Some? && s.bridge.None?
    requires host.handshakeEvents == pre + [frame] + rest
    requires forall i :: 0 <= i < |pre| ==> LastHandshakeReply(pre[i]).None?
    requires LastHandshakeReply(frame) == Some(reply)
    ensures var step := Save(s, path, config, overrideName, host);
            && Occurrences(step.calls, HandshakeKind) == 1
            && Occurrences(step.calls, BridgeSaveKind) == (if reply.Parsed? && reply.value.supported then 1 else 0)
            && (!(reply.Parsed? && reply.value.supported) ==> step.tier == LegacyTier && step.after.bridge == Some(false))
  {
    HandshakeFollowsReply(MailboxOf(s), s.counter, host.handshakeMs, pre, frame, reply, rest);
    SaveCallCounts(s, path, config, overrideName, host);
  }

  /** Whether File.Delete throws changes nothing but a log line. */
  lemma DeleteFailureIgnored(s: Session, path: string, config: Config, overrideName: Option<string>, host: Host)
    ensures Save(s, path, config, overrideName, host)
            == Save(s, path, config, overrideName, host.(deleteSucceeds := !host.deleteSucceeds))
  {
    var h := host.(deleteSucceeds := !host.deleteSucceeds);
    if host.file.Some? {
      SameHostButDelete(host, h);
      var hs := Negotiate(s, host);
      TransferButDelete(Negotiated(hs), SongOf(config, overrideName, host), host, h);
    }
  }

  /** Two hosts that differ at most in whether File.Delete throws. */
  ghost predicate SameButDelete(host: Host, h: Host)
  {
    && h.file == host.file && h.stamp == host.stamp && h.decode == host.decode
    && h.handshakeMs == host.handshakeMs && h.handshakeEvents == host.handshakeEvents
    && h.saveMs == host.saveMs && h.saveEvents == host.saveEvents && h.legacyEvents == host.legacyEvents
  }

  lemma SameHostButDelete(host: Host, h: Host)
    requires h == host.(deleteSucceeds := !host.deleteSucceeds)
    ensures SameButDelete(host, h)
  {
  }

  lemma TransferButDelete(k: Session, song: SongData, host: Host, h: Host)
    requires k.bridge.Some? && SameButDelete(host, h)
    ensures Transfer(k, song, h) == Transfer(k, song, host)
  {
  }

  lemma OccurrencesOfOne(c: HostCall, k: CallKind)
    ensures Occurrences([c], k) == if KindOf(c) == k then 1 else 0
  {
    assert [c][..0] == [];
  }

  lemma OccurrencesOfFour(a: seq<HostCall>, b: seq<HostCall>, c: seq<HostCall>, d: seq<HostCall>, k: CallKind)
    ensures Occurrences(a + b + c + d, k) == Occurrences(a, k) + Occurrences(b, k) + Occurrences(c, k) + Occurrences(d, k)
  {
    OccurrencesAppend(a, b, k);
    OccurrencesAppend(a + b, c, k);
    OccurrencesAppend(a + b + c, d, k);
  }

  /** The request id a call carries, if any. */
  function IdOf(c: HostCall): seq<string>
  {
    match c
    case BridgeHandshake(id) => [id]
    case BridgeSaveSong(id, _) => [id]
    case _ => []
  }

  /** The request ids sent to the host, in order. */
  function SentIds(calls: seq<HostCall>): seq<string>
  {
    if calls == [] then [] else SentIds(calls[..|calls| - 1]) + IdOf(calls[|calls| - 1])
  }

  lemma {:induction false} SentIdsAppend(a: seq<HostCall>, b: seq<HostCall>)
    ensures SentIds(a + b) == SentIds(a) + SentIds(b)
  {
    if b == [] {
      assert a + b == a;
    } else {
      assert (a + b)[..|a + b| - 1] == a + b[..|b| - 1];
      SentIdsAppend(a, b[..|b| - 1]);
    }
  }

  /** The counter part of a request id (0 for text that is not one). */
  function IdCounter(id: string): Int32
  {
    match Parse(id)
    case Some(r) => r.counter
    case None => 0
  }

  /** The ids carry the counters that follow `c`, one by one. */
  predicate CountsFrom(ids: seq<string>, c: Int32)
  {
    forall k :: 0 <= k < |ids| ==> IdCounter(ids[k]) == CounterAfter(c, k + 1)
  }

  /** Ids that carry successive counters, at most 2^32 of them, are all different. */
  lemma CountedIdsDistinct(ids: seq<string>, c: Int32)
    requires CountsFrom(ids, c) && |ids| <= TwoTo32
    ensures forall i, j :: 0 <= i < j < |ids| ==> ids[i] != ids[j]
  {
    forall i, j | 0 <= i < j < |ids|
      ensures ids[i] != ids[j]
    {
      assert IdCounter(ids[i]) == CounterAfter(c, i + 1) && IdCounter(ids[j]) == CounterAfter(c, j + 1);
      CounterAfterAdd(c, 1, i);
      CounterAfterAdd(c, 1, j);
      CountersDistinct(NextCounter(c), i, j);
    }
  }

  /** The id GenerateRequestId renders carries its counter. */
  lemma IdCarriesCounter(counter: Int32, ms: int)
    ensures IdCounter(RequestIdText(counter, ms)) == counter
  {
    ParseFormat(RequestId(counter, ms));
  }

  /** The handshake, if it runs, sends the id of the next counter. */
  lemma NegotiatedIds(s: Session, host: Host)
    ensures var hs := Negotiate(s, host);
            && hs.counter == CounterAfter(s.counter, |SentIds(hs.calls)|)
            && CountsFrom(SentIds(hs.calls), s.counter)
            && |SentIds(hs.calls)| == (if s.bridge.None? then 1 else 0)
  {
    var hs := Negotiate(s, host);
    if s.bridge.None? {
      assert hs.calls[..0] == [];
      IdCarriesCounter(hs.counter, host.handshakeMs);
    }
  }

  lemma NoIds(s: Session, path: string)
    ensures SentIds(InitCalls(s)) == [] && SentIds([DeleteFile(path)]) == []
  {
    if !s.initialized { assert InitCalls(s)[..0] == []; }
    assert [DeleteFile(path)][..0] == [];
  }

  /** A legacy save carries no request id. */
  lemma LegacyCallsHaveNoIds(ls: seq<HostCall>)
    requires |ls| <= 1 && forall c :: c in ls ==> c.LegacySaveSong?
    ensures SentIds(ls) == []
  {
    if ls != [] {
      assert ls[..0] == [] && ls[0] in ls;
    }
  }

  lemma SentIdsOfThree(a: seq<HostCall>, b: seq<HostCall>, c: seq<HostCall>)
    ensures SentIds(a + b + c) == SentIds(a) + SentIds(b) + SentIds(c)
  {
    SentIdsAppend(a, b);
    SentIdsAppend(a + b, c);
  }

  lemma SentIdsOfFour(a: seq<HostCall>, b: seq<HostCall>, c: seq<HostCall>, d: seq<HostCall>)
    ensures SentIds(a + b + c + d) == SentIds(a) + SentIds(b) + SentIds(c) + SentIds(d)
  {
    SentIdsOfThree(a, b, c);
    SentIdsAppend(a + b + c, d);
  }

  lemma EmptyEnds(x: seq<string>, y: seq<string>)
    ensures [] + x + y + [] == x + y
  {
  }

  /** Two runs of ids, the second counting on from where the first stopped. */
  lemma ChainIds(c: Int32, a: seq<string>, ca: Int32, b: seq<string>, cb: Int32)
    requires ca == CounterAfter(c, |a|) && CountsFrom(a, c)
    requires cb == CounterAfter(ca, |b|) && CountsFrom(b, ca)
    ensures cb == CounterAfter(c, |a + b|) && CountsFrom(a + b, c)
  {
    CounterAfterAdd(c, |a|, |b|);
    forall k | |a| <= k < |a + b|
      ensures IdCounter((a + b)[k]) == CounterAfter(c, k + 1)
    {
      CounterAfterAdd(c, |a|, k - |a| + 1);
    }
  }

  /** The Bridge save sends one id, that of the next counter. */
  lemma BridgeSaveIds(m: Mailbox, counter: Int32, ms: int, song: SongData, events: seq<Frame>)
    ensures var bs := BridgeSave(m, counter, ms, song, events);
            && bs.counter == CounterAfter(counter, |SentIds(bs.calls)|)
            && CountsFrom(SentIds(bs.calls), counter)
  {
    var bs := BridgeSave(m, counter, ms, song, events);
    assert bs.calls[..0] == [];
    assert SentIds(bs.calls) == [RequestIdText(bs.counter, ms)];
    IdCarriesCounter(bs.counter, ms);
  }

  /** The transfer sends the Bridge save's id, if any: the counter advances by as many ids as it sends. */
  lemma TransferIds(state: Session, song: SongData, host: Host)
    requires state.bridge.Some?
    ensures var t := Transfer(state, song, host);
            && t.after.counter == CounterAfter(state.counter, |SentIds(t.calls)|)
            && CountsFrom(SentIds(t.calls), state.counter)
  {
    if state.bridge.value {
      var bs := BridgeSave(state.mailbox, state.counter, host.saveMs, song, host.saveEvents);
      BridgeSaveIds(state.mailbox, state.counter, host.saveMs, song, host.saveEvents);
      if bs.result.None? {
        var ls := LegacySave(bs.mailbox, song, host.legacyEvents, host.decode);
        LegacyCallsHaveNoIds(ls.calls);
        SentIdsAppend(bs.calls, ls.calls);
        assert SentIds(bs.calls) + SentIds(ls.calls) == SentIds(bs.calls);
      }
    } else {
      var ls := LegacySave(state.mailbox, song, host.legacyEvents, host.decode);
      LegacyCallsHaveNoIds(ls.calls);
    }
  }

  /**
   * Each request id a save sends advances the counter by one, and the ids
   * carry the successive counters: the handshake's first, then the Bridge
   * save's.
   */
  lemma SaveRequestIds(s: Session, path: string, config: Config, overrideName: Option<string>, host: Host)
    ensures var step := Save(s, path, config, overrideName, host);
            && step.after.counter == CounterAfter(s.counter, |SentIds(step.calls)|)
            && CountsFrom(SentIds(step.calls), s.counter)
  {
    NoIds(s, path);
    if host.file.Some? {
      var hs := Negotiate(s, host);
      var t := Transfer(Negotiated(hs), SongOf(config, overrideName, host), host);
      SaveParts(s, path, config, overrideName, host);
      NegotiatedIds(s, host);
      TransferIds(Negotiated(hs), SongOf(config, overrideName, host), host);
      IdsOfParts(s.counter, InitCalls(s), hs.calls, hs.counter, t.calls, t.after.counter, [DeleteFile(path)]);
    }
  }

  /**
   * Four consecutive parts of the call log, the first and last carrying no
   * id, the middle two each counting on from where the one before stopped.
   */
  lemma IdsOfParts(c0: Int32, init: seq<HostCall>, a: seq<HostCall>, ca: Int32, b: seq<HostCall>, cb: Int32,
                   last: seq<HostCall>)
    requires SentIds(init) == [] && SentIds(last) == []
    requires ca == CounterAfter(c0, |SentIds(a)|) && CountsFrom(SentIds(a), c0)
    requires cb == CounterAfter(ca, |SentIds(b)|) && CountsFrom(SentIds(b), ca)
    ensures cb == CounterAfter(c0, |SentIds(init + a + b + last)|) && CountsFrom(SentIds(init + a + b + last), c0)
  {
    SentIdsOfFour(init, a, b, last);
    EmptyEnds(SentIds(a), SentIds(b));
    ChainIds(c0, SentIds(a), ca, SentIds(b), cb);
  }
}
