/**
 * The static class of Runtime/AudioSave.cs as the object it is at run time:
 * `IsInitialized`, `BridgeAvailable`, the listener and the request counter are
 * fields that its methods update in place. Every method is proved to do what
 * the decision tree `AudioSave.Save` says, so what is proved about `Save`
 * holds of `HandleFile`.
 *
 * The calls made into the host page and the file system are appended to
 * `hostCalls`, in order.
 */
module AudioSaveRuntime {
  import opened Nullable
  import opened Numerics
  import opened Faults
  import opened RequestIds
  import opened SaveListener
  import opened AudioSave

  class AudioSaveState {
    var isInitialized: bool
    var bridgeAvailable: Option<bool>
    var requestCounter: Int32
    var listener: AudioSaveListener?
    var hostCalls: seq<HostCall>

    /** There is a listener exactly when Initialize has run. */
    predicate Valid()
      reads this
    {
      isInitialized <==> listener != null
    }

    /** The fields as the `Session` value that `Save` takes and returns. */
    function State(): Session
      reads this, listener
    {
      Session(isInitialized, bridgeAvailable, requestCounter,
              if listener == null then FreshMailbox else listener.Snapshot())
    }

    /** The state when the program starts: not initialised, the Bridge unknown, the counter 0. */
    constructor()
      ensures Valid() && State() == Session(false, None, 0, FreshMailbox) && hostCalls == []
    {
      isInitialized := false;
      bridgeAvailable := None;
      requestCounter := 0;
      listener := null;
      hostCalls := [];
    }

    /** Creates the listener and registers it with the Bridge, once. */
    method Initialize()
      requires Valid()
      modifies this
      ensures Valid() && isInitialized
      ensures State() == old(State()).(initialized := true, mailbox := MailboxOf(old(State())))
      ensures hostCalls == old(hostCalls) + InitCalls(old(State()))
      ensures old(isInitialized) ==> listener == old(listener)
      ensures !old(isInitialized) ==> fresh(listener)
    {
      if isInitialized {
        assert InitCalls(State()) == [];
        return;
      }
      listener := new AudioSaveListener();
      hostCalls := hostCalls + [BridgeInit(ListenerName)];
      isInitialized := true;
    }

    /** `req_<counter>_<ms>` for the next counter, which it stores. */
    method GenerateRequestId(ms: int) returns (id: string)
      modifies this
      ensures requestCounter == NextCounter(old(requestCounter))
      ensures id == RequestIdText(requestCounter, ms)
      ensures isInitialized == old(isInitialized) && bridgeAvailable == old(bridgeAvailable)
      ensures listener == old(listener) && hostCalls == old(hostCalls)
    {
      requestCounter := NextCounter(requestCounter);
      id := RequestIdText(requestCounter, ms);
    }

    /**
     * The polling loop the three waits share: while the awaited property is
     * not set, the host runs the callbacks of the next frame, one by one,
     * before the property is checked again; running out of frames is the
     * timeout.
     */
    method AwaitCallbacks(w: Awaited, frames: seq<Frame>) returns (arrived: bool)
      requires listener != null
      modifies listener
      ensures Waited(listener.Snapshot(), arrived) == Await(old(listener.Snapshot()), frames, w)
    {
      ghost var m0 := listener.Snapshot();
      var i := 0;
      while i < |frames| && !Arrived(listener.Snapshot(), w)
        invariant 0 <= i <= |frames|
        invariant Await(m0, frames, w) == Await(listener.Snapshot(), frames[i..], w)
        decreases |frames| - i
      {
        assert frames[i..][1..] == frames[i + 1..];
        ghost var before := listener.Snapshot();
        var frame := frames[i];
        for j := 0 to |frame|
          invariant listener.Snapshot() == DeliverAll(before, frame[..j])
        {
          assert frame[..j + 1][..j] == frame[..j];
          listener.Receive(frame[j]);
        }
        assert frame[..|frame|] == frame;
        i := i + 1;
      }
      arrived := Arrived(listener.Snapshot(), w);
    }

    /** TryHandshakeAsync. */
    method TryHandshake(ms: int, events: seq<Frame>) returns (available: bool)
      requires Valid() && isInitialized
      modifies this, listener
      ensures Valid() && isInitialized && listener == old(listener) && bridgeAvailable == old(bridgeAvailable)
      ensures var hs := Handshake(old(listener.Snapshot()), old(requestCounter), ms, events);
              && available == hs.available && listener.Snapshot() == hs.mailbox
              && requestCounter == hs.counter && hostCalls == old(hostCalls) + hs.calls
    {
      listener.ResetHandshakeState();
      var id := GenerateRequestId(ms);
      hostCalls := hostCalls + [BridgeHandshake(id)];
      var arrived := AwaitCallbacks(ForHandshake, events);
      available := arrived && listener.handshake.supported;
    }

    /** TrySaveViaBridgeAsync: `None` is the `null` that signals a timeout. */
    method TrySaveViaBridge(ms: int, song: SongData, events: seq<Frame>) returns (result: Option<UploadResult>)
      requires Valid() && isInitialized
      modifies this, listener
      ensures Valid() && isInitialized && listener == old(listener) && bridgeAvailable == old(bridgeAvailable)
      ensures var bs := BridgeSave(old(listener.Snapshot()), old(requestCounter), ms, song, events);
              && result == bs.result && listener.Snapshot() == bs.mailbox
              && requestCounter == bs.counter && hostCalls == old(hostCalls) + bs.calls
    {
      listener.ResetSaveState();
      var id := GenerateRequestId(ms);
      hostCalls := hostCalls + [BridgeSaveSong(id, song)];
      var arrived := AwaitCallbacks(ForSaveResult, events);
      if !arrived {
        result := None;
      } else if listener.save.resultSuccess {
        result := Some(UploadResult(true, Some(BridgeSavedMessage), listener.save.resultSongId));
      } else {
        result := Some(UploadResult(false, Some(listener.save.resultError.GetOr(BridgeFailedMessage)), None));
      }
    }

    /** SaveViaLegacyAsync: `None` is a reply that decodes to `null`. */
    method SaveViaLegacy(song: SongData, events: seq<Frame>, decode: Option<string> -> LegacyDecode)
      returns (result: Option<UploadResult>)
      requires Valid() && isInitialized
      modifies this, listener
      ensures Valid() && isInitialized && listener == old(listener)
      ensures bridgeAvailable == old(bridgeAvailable) && requestCounter == old(requestCounter)
      ensures var ls := LegacySave(old(listener.Snapshot()), song, events, decode);
              && result == ls.result && listener.Snapshot() == ls.mailbox && hostCalls == old(hostCalls) + ls.calls
    {
      listener.legacy := listener.legacy.(awaiting := true);
      hostCalls := hostCalls + [LegacySaveSong(song, ListenerName)];
      var arrived := AwaitCallbacks(ForUpload, events);
      if !arrived {
        result := Some(UploadResult(false, Some(LegacyTimeoutMessage), None));
      } else {
        match decode(listener.legacy.uploadResultJson) {
          case Decoded(v) => result := Some(v);
          case DecodedNull => result := None;
          case DecodeThrew => result := Some(UploadResult(false, Some(LegacyDecodeErrorMessage), None));
        }
      }
    }

    /** The handshake HandleFileAsync runs when the Bridge state is unknown. */
    method NegotiateBridge(host: Host)
      requires Valid() && isInitialized
      modifies this, listener
      ensures Valid() && isInitialized && listener == old(listener)
      ensures var hs := Negotiate(old(State()), host);
              State() == Negotiated(hs) && hostCalls == old(hostCalls) + hs.calls
    {
      if bridgeAvailable.None? {
        var ok := TryHandshake(host.handshakeMs, host.handshakeEvents);
        bridgeAvailable := Some(ok);
      }
    }

    /** The Bridge save, then the legacy save if there is no result yet. */
    method TransferSong(song: SongData, host: Host) returns (result: Option<UploadResult>)
      requires Valid() && isInitialized && bridgeAvailable.Some?
      modifies this, listener
      ensures Valid() && isInitialized && listener == old(listener)
      ensures var t := Transfer(old(State()), song, host);
              result == t.result && State() == t.after && hostCalls == old(hostCalls) + t.calls
    {
      result := None;
      if bridgeAvailable == Some(true) {
        result := TrySaveViaBridge(host.saveMs, song, host.saveEvents);
        if result.None? {
          bridgeAvailable := Some(false);
        }
      }
      if result.None? {
        result := SaveViaLegacy(song, host.legacyEvents, host.decode);
      }
    }

    /**
     * HandleFileAsync: what it returns (or raises), the state it leaves and
     * the calls it makes are those of `Save`.
     */
    method HandleFile(path: string, config: Config, overrideName: Option<string>, host: Host)
      returns (outcome: Outcome<UploadResult>)
      requires Valid()
      modifies this, listener
      ensures Valid()
      ensures var step := Save(old(State()), path, config, overrideName, host);
              && outcome == step.outcome && State() == step.after && hostCalls == old(hostCalls) + step.calls
    {
      ghost var s := State();
      ghost var log0 := hostCalls;
      if !isInitialized {
        Initialize();
      }
      if host.file.None? {
        outcome := Returned(UploadResult(false, Some(FileNotFoundMessage), None));
      } else {
        ghost var s1, log1 := State(), hostCalls;
        var song := SongOf(config, overrideName, host);
        NegotiateBridge(host);
        ghost var s2, log2 := State(), hostCalls;
        var result := TransferSong(song, host);
        ghost var log3 := hostCalls;
        hostCalls := hostCalls + [DeleteFile(path)];
        SaveInSteps(s, path, config, overrideName, host, log0, s1, log1, s2, log2, result, State(), log3);
        outcome := if result.Some? then Returned(result.value) else Raised(NullReference);
      }
    }

    /** ResetBridgeState: the next save handshakes again. */
    method ResetBridgeState()
      modifies this
      ensures State() == ResetBridge(old(State())) && hostCalls == old(hostCalls)
      ensures isInitialized == old(isInitialized) && listener == old(listener)
    {
      bridgeAvailable := None;
    }
  }

  /**
   * The session ResetBridgeState leaves: the Bridge unknown, nothing else
   * changed. It changes a session exactly when the Bridge state is known, so
   * resetting twice is resetting once.
   */
  function ResetBridge(s: Session): (r: Session)
    ensures r.bridge.None?
    ensures r.initialized == s.initialized && r.counter == s.counter && r.mailbox == s.mailbox
    ensures r == s <==> s.bridge.None?
  {
    s.(bridge := None)
  }
}
