/**
 * The listener object the host page calls back into (Runtime/AudioSaveListener.cs).
 * It is a mailbox: three groups of properties, one per exchange with the host,
 * that reset methods clear and host callbacks overwrite. The JSON inside a
 * callback reaches the model already parsed, as a record or as the parser's
 * failure message.
 */
module SaveListener {
  import opened Nullable

  /** The outcome of `JsonUtility.FromJson` on a callback's payload. */
  datatype Parsed<+T> = Parsed(value: T) | ParseFailed(message: string)

  /** The fields of the three JSON replies that the listener keeps. */
  datatype HandshakeReply = HandshakeReply(supported: bool, requestId: Option<string>)
  datatype ProgressReply = ProgressReply(requestId: Option<string>, percent: real, stage: Option<string>)
  datatype SaveReply = SaveReply(requestId: Option<string>, success: bool, songId: Option<string>, error: Option<string>)

  /** One `OnProgressReceived` notification: the fraction done (percent / 100) and the stage. */
  datatype ProgressNotice = ProgressNotice(fraction: real, stage: Option<string>)

  /** The handshake properties. */
  datatype HandshakeSlot = HandshakeSlot(received: bool, supported: bool, requestId: Option<string>)

  /** The ten acknowledgement, progress and result properties of a Bridge save. */
  datatype SaveSlot = SaveSlot(
    ackReceived: bool,
    ackRequestId: Option<string>,
    progressRequestId: Option<string>,
    progressPercent: real,
    progressStage: Option<string>,
    resultReceived: bool,
    resultRequestId: Option<string>,
    resultSuccess: bool,
    resultSongId: Option<string>,
    resultError: Option<string>)

  /** The legacy upload properties. */
  datatype LegacySlot = LegacySlot(awaiting: bool, uploadResultJson: Option<string>)

  /** Everything the listener holds, with the notifications it has sent so far. */
  datatype Mailbox = Mailbox(handshake: HandshakeSlot, save: SaveSlot, legacy: LegacySlot, notices: seq<ProgressNotice>)

  const NoHandshake: HandshakeSlot := HandshakeSlot(false, false, None)
  const NoSave: SaveSlot := SaveSlot(false, None, None, 0.0, None, false, None, false, None, None)
  const FreshMailbox: Mailbox := Mailbox(NoHandshake, NoSave, LegacySlot(false, None), [])
  const ParseResultPrefix: string := "Failed to parse result: "

  /** A call the host page makes on the listener. */
  datatype Callback =
    | PlatformUpload(json: Option<string>)
    | BridgeHandshakeReply(handshake: Parsed<HandshakeReply>)
    | BridgeSaveAck(requestId: Option<string>)
    | BridgeSaveProgress(progress: Parsed<ProgressReply>)
    | BridgeSaveResult(result: Parsed<SaveReply>)

  /** OnBridgeHandshakeResult: always marks the reply received; a reply that does not parse counts as unsupported. */
  function AfterHandshake(h: HandshakeSlot, reply: Parsed<HandshakeReply>): (r: HandshakeSlot)
    ensures r.received
    ensures r.supported <==> reply.Parsed? && reply.value.supported
    ensures reply.ParseFailed? ==> r.requestId == h.requestId
    ensures reply.Parsed? ==> r.requestId == reply.value.requestId
  {
    match reply
    case Parsed(v) => HandshakeSlot(true, v.supported, v.requestId)
    case ParseFailed(_) => h.(received := true, supported := false)
  }

  /** OnBridgeSaveProgress: a parsed reply replaces the last id, percent and stage; a failure changes nothing. */
  function AfterProgress(s: SaveSlot, reply: Parsed<ProgressReply>): (r: SaveSlot)
    ensures reply.ParseFailed? ==> r == s
    ensures reply.Parsed? ==> r.progressPercent == reply.value.percent && r.progressStage == reply.value.stage
                              && r.progressRequestId == reply.value.requestId
    ensures r.(progressRequestId := s.progressRequestId, progressPercent := s.progressPercent,
               progressStage := s.progressStage) == s
  {
    match reply
    case Parsed(v) => s.(progressRequestId := v.requestId, progressPercent := v.percent, progressStage := v.stage)
    case ParseFailed(_) => s
  }

  /**
   * OnBridgeSaveResult: always marks the result received; it succeeds only when
   * the reply parses and says so, and a parse failure carries its message.
   */
  function AfterResult(s: SaveSlot, reply: Parsed<SaveReply>): (r: SaveSlot)
    ensures r.resultReceived
    ensures r.resultSuccess <==> reply.Parsed? && reply.value.success
    ensures reply.ParseFailed? ==> r.resultError == Some(ParseResultPrefix + reply.message)
                                   && r.resultRequestId == s.resultRequestId && r.resultSongId == s.resultSongId
    ensures reply.Parsed? ==> r.resultSongId == reply.value.songId && r.resultError == reply.value.error
    ensures r.(resultReceived := s.resultReceived, resultRequestId := s.resultRequestId, resultSuccess := s.resultSuccess,
               resultSongId := s.resultSongId, resultError := s.resultError) == s
  {
    match reply
    case Parsed(v) =>
      s.(resultReceived := true, resultRequestId := v.requestId, resultSuccess := v.success,
         resultSongId := v.songId, resultError := v.error)
    case ParseFailed(msg) =>
      s.(resultReceived := true, resultSuccess := false, resultError := Some(ParseResultPrefix + msg))
  }

  /** The notification a progress callback sends, if its reply parses. */
  function NoticeOf(reply: Parsed<ProgressReply>): seq<ProgressNotice>
  {
    match reply
    case Parsed(v) => [ProgressNotice(v.percent / 100.0, v.stage)]
    case ParseFailed(_) => []
  }

  /** The mailbox after one callback. */
  function Deliver(m: Mailbox, cb: Callback): Mailbox
  {
    match cb
    case PlatformUpload(json) => m.(legacy := LegacySlot(false, json))
    case BridgeHandshakeReply(reply) => m.(handshake := AfterHandshake(m.handshake, reply))
    case BridgeSaveAck(id) => m.(save := m.save.(ackReceived := true, ackRequestId := id))
    case BridgeSaveProgress(reply) => m.(save := AfterProgress(m.save, reply), notices := m.notices + NoticeOf(reply))
    case BridgeSaveResult(reply) => m.(save := AfterResult(m.save, reply))
  }

  /** The mailbox after a series of callbacks, in arrival order. */
  function DeliverAll(m: Mailbox, events: seq<Callback>): Mailbox
  {
    if events == [] then m else Deliver(DeliverAll(m, events[..|events| - 1]), events[|events| - 1])
  }

  /** The notifications a series of callbacks sends, in order. */
  function Notices(events: seq<Callback>): seq<ProgressNotice>
  {
    if events == [] then []
    else
      var last := events[|events| - 1];
      Notices(events[..|events| - 1]) + (if last.BridgeSaveProgress? then NoticeOf(last.progress) else [])
  }

  /** Delivering `a` then `b` is delivering `a + b`. */
  lemma {:induction false} DeliverAllAppend(m: Mailbox, a: seq<Callback>, b: seq<Callback>)
    ensures DeliverAll(m, a + b) == DeliverAll(DeliverAll(m, a), b)
  {
    if b == [] {
      assert a + b == a;
    } else {
      assert (a + b)[..|a + b| - 1] == a + b[..|b| - 1];
      DeliverAllAppend(m, a, b[..|b| - 1]);
    }
  }

  /** Subscribers hear one notification per parsed progress reply and nothing else. */
  lemma {:induction false} NoticesDelivered(m: Mailbox, events: seq<Callback>)
    ensures DeliverAll(m, events).notices == m.notices + Notices(events)
  {
    if events != [] {
      NoticesDelivered(m, events[..|events| - 1]);
    }
  }

  /** Once a handshake reply has arrived no callback un-receives it; only ResetHandshakeState does. */
  lemma {:induction false} HandshakeStaysReceived(m: Mailbox, events: seq<Callback>)
    requires m.handshake.received
    ensures DeliverAll(m, events).handshake.received
  {
    if events != [] {
      HandshakeStaysReceived(m, events[..|events| - 1]);
    }
  }

  /** Likewise for a save result: only ResetSaveState clears it. */
  lemma {:induction false} ResultStaysReceived(m: Mailbox, events: seq<Callback>)
    requires m.save.resultReceived
    ensures DeliverAll(m, events).save.resultReceived
  {
    if events != [] {
      ResultStaysReceived(m, events[..|events| - 1]);
    }
  }

  /**
   * No callback compares the request id it carries with one it expects: a
   * reply for another request is taken exactly as the awaited one would be.
   */
  lemma ResultIgnoresRequestId(m: Mailbox, reply: SaveReply, other: Option<string>)
    ensures Deliver(m, BridgeSaveResult(Parsed(reply))).save.resultSuccess
            == Deliver(m, BridgeSaveResult(Parsed(reply.(requestId := other)))).save.resultSuccess
    ensures Deliver(m, BridgeSaveResult(Parsed(reply))).save.resultSongId
            == Deliver(m, BridgeSaveResult(Parsed(reply.(requestId := other)))).save.resultSongId
    ensures Deliver(m, BridgeSaveResult(Parsed(reply.(requestId := other)))).save.resultRequestId == other
  {
  }

  /**
   * The callbacks the host page makes between two frames, in the order it
   * makes them. A wait polls its property once per frame, so every callback
   * of a frame has run before the next check.
   */
  type Frame = seq<Callback>

  /** The last handshake reply among `events`, if there is one. */
  function LastHandshakeReply(events: seq<Callback>): (r: Option<Parsed<HandshakeReply>>)
    ensures r.None? <==> forall i :: 0 <= i < |events| ==> !events[i].BridgeHandshakeReply?
    ensures r.Some? ==> BridgeHandshakeReply(r.value) in events
  {
    if events == [] then None
    else
      var last := events[|events| - 1];
      if last.BridgeHandshakeReply? then Some(last.handshake) else LastHandshakeReply(events[..|events| - 1])
  }

  /**
   * Callbacks in a row: without a handshake reply among them the handshake
   * properties are as they were; otherwise the reply is received, and the
   * last handshake reply alone decides whether the Bridge is supported.
   */
  lemma {:induction false} LastReplyDecides(m: Mailbox, events: seq<Callback>)
    ensures var h := DeliverAll(m, events).handshake;
            match LastHandshakeReply(events)
            case None => h == m.handshake
            case Some(reply) => h.received && (h.supported <==> reply.Parsed? && reply.value.supported)
  {
    if events != [] {
      LastReplyDecides(m, events[..|events| - 1]);
    }
  }

  /**
   * The listener as the host sees it: the properties of
   * Runtime/AudioSaveListener.cs, and the notifications sent to
   * `OnProgressReceived` subscribers. The properties are kept in one record
   * per exchange with the host, in the groups the source declares them:
   * `IsAwaiting` is `legacy.awaiting`, `HandshakeSupported` is
   * `handshake.supported`, `SaveAckRequestId` is `save.ackRequestId`,
   * `LastProgressPercent` is `save.progressPercent`, `SaveResultError` is
   * `save.resultError`, and so on.
   */
  class AudioSaveListener {
    var legacy: LegacySlot
    var handshake: HandshakeSlot
    var save: SaveSlot
    var progressNotices: seq<ProgressNotice>

    /** The properties, with the notifications sent so far. */
    function Snapshot(): Mailbox
      reads this
    {
      Mailbox(handshake, save, legacy, progressNotices)
    }

    /** A new listener: every flag false, every string null, the percent 0. */
    constructor()
      ensures Snapshot() == FreshMailbox
    {
      legacy := LegacySlot(false, None);
      handshake := HandshakeSlot(false, false, None);
      save := SaveSlot(false, None, None, 0.0, None, false, None, false, None, None);
      progressNotices := [];
    }

    method ResetHandshakeState()
      modifies this
      ensures Snapshot() == old(Snapshot()).(handshake := NoHandshake)
    {
      handshake := handshake.(received := false, supported := false, requestId := None);
    }

    method ResetSaveState()
      modifies this
      ensures Snapshot() == old(Snapshot()).(save := NoSave)
    {
      save := save.(ackReceived := false, ackRequestId := None,
                    progressRequestId := None, progressPercent := 0.0, progressStage := None,
                    resultReceived := false, resultRequestId := None, resultSuccess := false,
                    resultSongId := None, resultError := None);
    }

    method OnPlatformUploadResult(json: Option<string>)
      modifies this
      ensures Snapshot() == Deliver(old(Snapshot()), PlatformUpload(json))
      ensures !legacy.awaiting && legacy.uploadResultJson == json
    {
      legacy := legacy.(uploadResultJson := json, awaiting := false);
    }

    method OnBridgeHandshakeResult(reply: Parsed<HandshakeReply>)
      modifies this
      ensures Snapshot() == Deliver(old(Snapshot()), BridgeHandshakeReply(reply))
    {
      match reply {
        case Parsed(v) =>
          handshake := handshake.(received := true, supported := v.supported, requestId := v.requestId);
        case ParseFailed(_) =>
          handshake := handshake.(received := true, supported := false);
      }
    }

    method OnBridgeSaveAck(requestId: Option<string>)
      modifies this
      ensures Snapshot() == Deliver(old(Snapshot()), BridgeSaveAck(requestId))
    {
      save := save.(ackReceived := true, ackRequestId := requestId);
    }

    method OnBridgeSaveProgress(reply: Parsed<ProgressReply>)
      modifies this
      ensures Snapshot() == Deliver(old(Snapshot()), BridgeSaveProgress(reply))
    {
      match reply {
        case Parsed(v) =>
          save := save.(progressRequestId := v.requestId, progressPercent := v.percent, progressStage := v.stage);
          progressNotices := progressNotices + [ProgressNotice(v.percent / 100.0, v.stage)];
        case ParseFailed(_) =>
      }
    }

    method OnBridgeSaveResult(reply: Parsed<SaveReply>)
      modifies this
      ensures Snapshot() == Deliver(old(Snapshot()), BridgeSaveResult(reply))
    {
      match reply {
        case Parsed(v) =>
          save := save.(resultReceived := true, resultRequestId := v.requestId, resultSuccess := v.success,
                        resultSongId := v.songId, resultError := v.error);
        case ParseFailed(msg) =>
          save := save.(resultReceived := true, resultSuccess := false, resultError := Some(ParseResultPrefix + msg));
      }
    }

    /** The host page invoking whichever callback `cb` names. */
    method Receive(cb: Callback)
      modifies this
      ensures Snapshot() == Deliver(old(Snapshot()), cb)
    {
      match cb {
        case PlatformUpload(json) => OnPlatformUploadResult(json);
        case BridgeHandshakeReply(reply) => OnBridgeHandshakeResult(reply);
        case BridgeSaveAck(id) => OnBridgeSaveAck(id);
        case BridgeSaveProgress(reply) => OnBridgeSaveProgress(reply);
        case BridgeSaveResult(reply) => OnBridgeSaveResult(reply);
      }
    }
  }
}
