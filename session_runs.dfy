/**
 * What the process-wide state of Runtime/AudioSave.cs guarantees across many
 * calls: a run is a series of `HandleFileAsync` calls and `ResetBridgeState`
 * calls, each starting from the state the previous one left.
 */
module SessionRuns {
  import opened Nullable
  import opened Numerics
  import opened RequestIds
  import opened AudioSave
  import opened AudioSaveRuntime

  datatype Action =
    | Upload(path: string, config: Config, overrideName: Option<string>, host: Host)
    | ResetBridgeAction

  datatype RunResult = RunResult(final: Session, calls: seq<HostCall>)

  /** The state after one action, and the calls it made. */
  function Step(s: Session, a: Action): RunResult
  {
    match a
    case Upload(path, config, overrideName, host) =>
      var step := Save(s, path, config, overrideName, host);
      RunResult(step.after, step.calls)
    case ResetBridgeAction => RunResult(ResetBridge(s), [])
  }

  /** The state after a series of actions, and every call they made, in order. */
  function Run(s: Session, actions: seq<Action>): RunResult
  {
    if actions == [] then RunResult(s, [])
    else
      var before := Run(s, actions[..|actions| - 1]);
      var last := Step(before.final, actions[|actions| - 1]);
      RunResult(last.final, before.calls + last.calls)
  }

  /** How many of `actions` are `ResetBridgeState` calls. */
  function Resets(actions: seq<Action>): (n: nat)
    ensures n <= |actions|
  {
    if actions == [] then 0
    else Resets(actions[..|actions| - 1]) + (if actions[|actions| - 1].ResetBridgeAction? then 1 else 0)
  }

  /** The counter and the request ids stay in step over one action. */
  lemma StepRequestIds(s: Session, a: Action)
    ensures var r := Step(s, a);
            && r.final.counter == CounterAfter(s.counter, |SentIds(r.calls)|)
            && CountsFrom(SentIds(r.calls), s.counter)
  {
    match a
    case Upload(path, config, overrideName, host) =>
      SaveRequestIds(s, path, config, overrideName, host);
    case ResetBridgeAction =>
  }

  /**
   * Over any run, the ids sent carry consecutive counters, starting after the
   * initial one, and the final counter is the last of them.
   */
  lemma {:induction false} RunRequestIds(s: Session, actions: seq<Action>)
    ensures var r := Run(s, actions);
            && r.final.counter == CounterAfter(s.counter, |SentIds(r.calls)|)
            && CountsFrom(SentIds(r.calls), s.counter)
  {
    if actions != [] {
      var init := actions[..|actions| - 1];
      var before := Run(s, init);
      var last := Step(before.final, actions[|actions| - 1]);
      RunRequestIds(s, init);
      StepRequestIds(before.final, actions[|actions| - 1]);
      SentIdsAppend(before.calls, last.calls);
      ChainIds(s.counter, SentIds(before.calls), before.final.counter, SentIds(last.calls), last.final.counter);
    }
  }

  /**
   * No request id is sent twice while at most 2^32 have been sent, whatever
   * the clock says: the counters they carry differ.
   */
  lemma RunIdsDistinct(s: Session, actions: seq<Action>)
    requires |SentIds(Run(s, actions).calls)| <= TwoTo32
    ensures var ids := SentIds(Run(s, actions).calls);
            forall i, j :: 0 <= i < j < |ids| ==> ids[i] != ids[j]
  {
    RunRequestIds(s, actions);
    CountedIdsDistinct(SentIds(Run(s, actions).calls), s.counter);
  }

  /** One action: a handshake is sent only where the Bridge state was unknown, and leaves it known. */
  lemma StepHandshakes(s: Session, a: Action)
    ensures var r := Step(s, a);
            Occurrences(r.calls, HandshakeKind) + (if r.final.bridge.None? then 1 else 0)
            <= (if a.ResetBridgeAction? then 1 else 0) + (if s.bridge.None? then 1 else 0)
  {
    match a
    case Upload(path, config, overrideName, host) =>
      SaveCallCounts(s, path, config, overrideName, host);
    case ResetBridgeAction =>
  }

  /**
   * The handshake runs at most once per Bridge reset, plus once at the start
   * if the Bridge state was unknown then: a known state is never re-negotiated
   * by a save.
   */
  lemma {:induction false} RunHandshakes(s: Session, actions: seq<Action>)
    ensures var r := Run(s, actions);
            Occurrences(r.calls, HandshakeKind) + (if r.final.bridge.None? then 1 else 0)
            <= Resets(actions) + (if s.bridge.None? then 1 else 0)
  {
    if actions != [] {
      var init := actions[..|actions| - 1];
      var before := Run(s, init);
      var last := Step(before.final, actions[|actions| - 1]);
      RunHandshakes(s, init);
      StepHandshakes(before.final, actions[|actions| - 1]);
      OccurrencesAppend(before.calls, last.calls, HandshakeKind);
    }
  }

  /** A Bridge known to be unavailable stays so, and no save touches it. */
  lemma StepWithoutBridge(s: Session, a: Action)
    requires s.bridge == Some(false) && a.Upload?
    ensures var r := Step(s, a);
            && r.final.bridge == Some(false)
            && Occurrences(r.calls, HandshakeKind) == 0 && Occurrences(r.calls, BridgeSaveKind) == 0
  {
    SaveCallCounts(s, a.path, a.config, a.overrideName, a.host);
    if a.host.file.Some? {
      UnavailableGoesLegacy(s, a.path, a.config, a.overrideName, a.host);
    }
  }

  /**
   * Once the Bridge is marked unavailable, every later save goes to the
   * legacy tier without a handshake, until ResetBridgeState.
   */
  lemma {:induction false} UnavailableUntilReset(s: Session, actions: seq<Action>)
    requires s.bridge == Some(false) && Resets(actions) == 0
    ensures var r := Run(s, actions);
            && r.final.bridge == Some(false)
            && Occurrences(r.calls, HandshakeKind) == 0 && Occurrences(r.calls, BridgeSaveKind) == 0
  {
    if actions != [] {
      var init := actions[..|actions| - 1];
      var before := Run(s, init);
      var last := Step(before.final, actions[|actions| - 1]);
      UnavailableUntilReset(s, init);
      StepWithoutBridge(before.final, actions[|actions| - 1]);
      OccurrencesAppend(before.calls, last.calls, HandshakeKind);
      OccurrencesAppend(before.calls, last.calls, BridgeSaveKind);
    }
  }

  /** After ResetBridgeState, the next save of an existing file handshakes again. */
  lemma ResetForcesHandshake(s: Session, path: string, config: Config, overrideName: Option<string>, host: Host)
    requires host.file.Some?
    ensures Occurrences(Save(ResetBridge(s), path, config, overrideName, host).calls, HandshakeKind) == 1
  {
    SaveCallCounts(ResetBridge(s), path, config, overrideName, host);
  }

  /** The listener is created and registered once: the first save, and no other, calls the Bridge's init. */
  lemma StepInits(s: Session, a: Action)
    ensures var r := Step(s, a);
            && (s.initialized ==> r.final.initialized)
            && Occurrences(r.calls, InitKind) == (if !s.initialized && r.final.initialized then 1 else 0)
  {
    match a
    case Upload(path, config, overrideName, host) =>
      SaveCallCounts(s, path, config, overrideName, host);
    case ResetBridgeAction =>
  }

  lemma {:induction false} RunInits(s: Session, actions: seq<Action>)
    ensures var r := Run(s, actions);
            && (s.initialized ==> r.final.initialized)
            && Occurrences(r.calls, InitKind) == (if !s.initialized && r.final.initialized then 1 else 0)
  {
    if actions != [] {
      var init := actions[..|actions| - 1];
      var before := Run(s, init);
      var last := Step(before.final, actions[|actions| - 1]);
      RunInits(s, init);
      StepInits(before.final, actions[|actions| - 1]);
      OccurrencesAppend(before.calls, last.calls, InitKind);
    }
  }
}
