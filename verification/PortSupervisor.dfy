/** The supervisor object of one port, whose handlers run one at a time from its queue. */
module PortSupervisor {
  import opened Wrappers
  import opened PacketIndex
  import opened HelperFrames
  import opened StreamMetadata
  import opened Types = SupervisorSpec
  import Spec = SupervisorSpec

  class SrtpPortSupervisor {
    const timeouts: Timeouts
    var state: State
    var lockHeld: bool
    var helper: Option<SessionId>
    var releaseAfterStop: bool
    var fatalReason: Option<FatalReason>
    var backoffMs: nat
    var retryAtMs: int
    var startedAtMs: int
    var stoppedSentAtMs: int
    var lastAcquireAttemptMs: int
    var lastFrameAtMs: int
    var searchFromCarry: Option<Carry>
    var sessionFloorBase: nat
    var sessionEpochs: map<SessionId, Option<int>>

    function View(): Supervisor
      reads this
    {
      Supervisor(state, lockHeld, helper, releaseAfterStop, fatalReason, backoffMs, retryAtMs, startedAtMs,
                 stoppedSentAtMs, lastAcquireAttemptMs, lastFrameAtMs, searchFromCarry, sessionFloorBase,
                 sessionEpochs)
    }

    /** Holds before and after every queued step, whatever the answers. */
    predicate Valid()
      reads this
    {
      Spec.Stands(View(), timeouts)
    }

    constructor (timeouts: Timeouts)
      ensures Valid()
      ensures this.timeouts == timeouts && View() == Spec.New(timeouts)
    {
      this.timeouts := timeouts;
      state, lockHeld, helper, releaseAfterStop, fatalReason := Idle, false, None, true, None;
      backoffMs, retryAtMs, startedAtMs, stoppedSentAtMs := timeouts.restartMs, 0, 0, 0;
      lastAcquireAttemptMs, lastFrameAtMs, searchFromCarry, sessionFloorBase := 0, 0, None, 0;
      sessionEpochs := map[];
    }

    method WriteCommand(command: Command) returns (effects: seq<Effect>)
      ensures effects == Spec.Writing(View(), command)
    {
      if helper.None? {
        return [];
      }
      return [Wrote(helper.value, command)];
    }

    method EnterCooldown(now: int)
      modifies this
      ensures View() == Spec.EnterCooldown(old(View()), timeouts, now)
    {
      retryAtMs := now + backoffMs;
      backoffMs := if backoffMs * 2 < timeouts.restartMaxMs then backoffMs * 2 else timeouts.restartMaxMs;
      state := Cooldown;
    }

    method Start(a: Answers) returns (effects: seq<Effect>)
      requires Valid()
      modifies this
      ensures Valid()
      ensures (View(), effects) == Spec.Start(old(View()), timeouts, a)
    {
      if state.Idle? {
        Spec.SpawnStands(View(), timeouts, a);
      }
      if !state.Idle? {
        return [];
      }
      effects := SpawnSession(a);
    }

    method Adopt(session: SessionId, epoch: Option<int>, now: int)
      modifies this
      ensures View() == Spec.Adopt(old(View()), session, epoch, now)
    {
      helper := Some(session);
      sessionEpochs := sessionEpochs[session := epoch];
      startedAtMs := now;
      lastFrameAtMs := now;
      state := Starting;
    }

    method SpawnSession(a: Answers) returns (effects: seq<Effect>)
      requires Valid() && !Spec.HasHelper(state)
      modifies this
      ensures Valid()
      ensures (View(), effects) == Spec.SpawnSession(old(View()), timeouts, a)
    {
      Spec.SpawnStands(View(), timeouts, a);
      fatalReason := None;
      if state.Terminated? || state.Disabled? {
        return [];
      }
      if a.startEpoch.None? || a.startFloor.None? {
        EnterCooldown(a.now);
        return [];
      }
      var epoch, floor := a.startEpoch.value, a.startFloor.value;
      var floorBase := if floor.None? then 0 else Roc(floor.value);
      var carry := searchFromCarry;
      var searchFrom := if carry.Some? && carry.value.base == floorBase then Some(carry.value.searchFrom) else None;
      sessionFloorBase := floorBase;
      if a.child.None? {
        EnterCooldown(a.now);
        return [];
      }
      Adopt(a.child.value, epoch, a.now);
      effects := WriteCommand(Init(floor, searchFrom));
      effects := [Spawned(a.child.value)] + effects;
    }

    method ReleaseLock() returns (effects: seq<Effect>)
      modifies this
      ensures (View(), effects) == Spec.ReleaseLock(old(View()))
    {
      if !lockHeld {
        return [];
      }
      lockHeld := false;
      return [AskedRelease];
    }

    method EndSession(now: int) returns (effects: seq<Effect>)
      requires Valid() && Spec.HasHelper(state)
      modifies this
      ensures Valid()
      ensures (View(), effects) == Spec.EndSession(old(View()), timeouts, now)
    {
      Spec.EndStands(View(), timeouts, now);
      effects := [];
      if helper.Some? {
        var ended := helper.value;
        helper := None;
        var released := ReleaseLock();
        effects := [EndedHelper(ended)] + released;
      }
      if !state.Terminated? {
        EnterCooldown(now);
      }
    }

    method AttemptAcquire(a: Answers) returns (effects: seq<Effect>)
      requires Valid()
      modifies this
      ensures Valid()
      ensures (View(), effects) == Spec.AttemptAcquire(old(View()), a)
    {
      Spec.AcquireStands(View(), timeouts, a);
      if !state.Searching? && !state.Acquiring? {
        return [];
      }
      lastAcquireAttemptMs := a.now;
      state := Acquiring;
      if !a.acquire.Acquired? {
        return [AskedAcquire];
      }
      lockHeld := true;
      releaseAfterStop := true;
      var written := WriteCommand(StartProducing);
      state := Producing;
      return [AskedAcquire] + written;
    }

    method NotProducing() returns (effects: seq<Effect>)
      requires Valid()
      modifies this
      ensures Valid()
      ensures (View(), effects) == Spec.NotProducing(old(View()))
    {
      Spec.StoppedStands(View(), timeouts);
      effects := [];
      if state.Producing? || state.Stopping? {
        effects := ReleaseLock();
        state := Searching;
      } else if state.Acquiring? {
        state := Searching;
      }
    }

    method RefreshLease(a: Answers) returns (effects: seq<Effect>)
      requires Valid()
      modifies this
      ensures Valid()
      ensures (View(), effects) == Spec.RefreshLease(old(View()), a)
    {
      Spec.AcquireStands(View(), timeouts, a);
      if !state.Producing? {
        return [];
      }
      effects := [AskedRefresh];
      if a.refresh == Some(LostLock) {
        releaseAfterStop := false;
        var written := WriteCommand(StopProducing);
        effects := effects + written;
        stoppedSentAtMs := a.now;
        state := Stopping;
      }
    }

    method OnStopped() returns (effects: seq<Effect>)
      requires Valid()
      modifies this
      ensures Valid()
      ensures (View(), effects) == Spec.OnStopped(old(View()))
    {
      Spec.StoppedStands(View(), timeouts);
      effects := [];
      if state.Stopping? {
        if releaseAfterStop {
          effects := ReleaseLock();
        } else {
          lockHeld := false;
        }
        state := Searching;
      } else if state.Producing? {
        effects := ReleaseLock();
        state := Searching;
      }
    }

    method RaiseFloor(index: nat, session: SessionId) returns (effects: seq<Effect>)
      ensures effects == [AskedRaise(index, Spec.EpochOf(View(), session))]
    {
      var epoch := if session in sessionEpochs then sessionEpochs[session] else None;
      return [AskedRaise(index, epoch)];
    }

    method OnStats(f: Frame, ghost session: SessionId, a: Answers) returns (effects: seq<Effect>)
      requires f.Stats?
      requires Valid() && helper == Some(session) && !state.Terminated?
      modifies this
      ensures Valid()
      ensures (View(), effects) == Spec.CurrentFrame(old(View()), timeouts, f, session, a)
    {
      Spec.CurrentFrameStands(View(), timeouts, f, session, a);
      effects := [];
      if state.Producing? {
        if f.authenticated > 0 {
          effects := RefreshLease(a);
        }
      } else if state.Acquiring? && f.authenticated > 0
                && a.now - lastAcquireAttemptMs >= timeouts.acquireRetryMs {
        effects := AttemptAcquire(a);
      }
      effects := [CountedBytes(f.inputBytes)] + effects;
    }

    /** A frame of a session that has been replaced. */
    method HandleStaleFrame(f: Frame, session: SessionId) returns (effects: seq<Effect>)
      modifies this
      ensures (View(), effects) == Spec.StaleFrame(old(View()), f, session)
    {
      effects := [];
      if f.IndexReport? {
        effects := RaiseFloor(f.index, session);
      } else if f.AuthFail? && f.searchFrom.Some? {
        searchFromCarry := Some(Carry(sessionFloorBase, f.searchFrom.value));
      }
    }

    method HandleCurrentFrame(f: Frame, session: SessionId, a: Answers) returns (effects: seq<Effect>)
      requires Valid() && helper == Some(session) && !state.Terminated?
      modifies this
      ensures Valid()
      ensures (View(), effects) == Spec.CurrentFrame(old(View()), timeouts, f, session, a)
    {
      Spec.CurrentFrameStands(View(), timeouts, f, session, a);
      effects := [];
      match f {
        case Ready(v) =>
          if v != PROTOCOL_VERSION {
            effects := EndSession(a.now);
          } else if state.Starting? {
            backoffMs := timeouts.restartMs;
            state := Searching;
          }
        case AuthOk(first, _, _, _) =>
          if first {
            effects := AttemptAcquire(a);
          }
        case AuthFail(_, searchFrom) =>
          if searchFrom.Some? {
            searchFromCarry := Some(Carry(sessionFloorBase, searchFrom.value));
          }
        case AuthLost =>
          effects := NotProducing();
        case Stopped(last) =>
          var raised := [];
          if last.Some? {
            raised := RaiseFloor(last.value, session);
          }
          var released := OnStopped();
          effects := raised + released;
        case IndexReport(index) =>
          effects := RaiseFloor(index, session);
        case Stats(_, _) =>
          effects := OnStats(f, session, a);
        case Fatal(reason) =>
          fatalReason := Some(reason);
        case Trial(_, _) =>
        case ProducingStarted =>
        case Notice =>
      }
    }

    method HandleFrame(f: Frame, session: SessionId, a: Answers) returns (effects: seq<Effect>)
      requires Valid()
      modifies this
      ensures Valid()
      ensures (View(), effects) == Spec.HandleFrame(old(View()), timeouts, f, session, a)
    {
      if state.Terminated? || state.Idle? {
        return [];
      }
      if helper != Some(session) {
        effects := HandleStaleFrame(f, session);
        return;
      }
      lastFrameAtMs := a.now;
      effects := HandleCurrentFrame(f, session, a);
    }

    method HandleExit(session: SessionId, now: int) returns (effects: seq<Effect>)
      requires Valid()
      modifies this
      ensures Valid()
      ensures (View(), effects) == Spec.HandleExit(old(View()), timeouts, session, now)
    {
      Spec.ExitStands(View(), timeouts, session, now);
      if helper != Some(session) {
        return [];
      }
      helper := None;
      if state.Terminated? {
        return [];
      }
      effects := ReleaseLock();
      if fatalReason.Some? && !IsRetryable(fatalReason.value) {
        state := Disabled;
        return;
      }
      EnterCooldown(now);
    }

    method HandleError(session: SessionId, now: int) returns (effects: seq<Effect>)
      requires Valid()
      modifies this
      ensures Valid()
      ensures (View(), effects) == Spec.HandleError(old(View()), timeouts, session, now)
    {
      Spec.ExitStands(View(), timeouts, session, now);
      effects := HandleExit(session, now);
      effects := [EndedHelper(session)] + effects;
    }

    method ReplaceHelper(a: Answers) returns (effects: seq<Effect>)
      requires Valid() && Spec.HasHelper(state)
      modifies this
      ensures Valid()
      ensures (View(), effects) == Spec.ReplaceHelper(old(View()), timeouts, a)
    {
      Spec.ReplaceStands(View(), timeouts, a);
      searchFromCarry := None;
      effects := EndSession(a.now);
      backoffMs := timeouts.restartMs;
      if state.Cooldown? {
        var spawned := SpawnSession(a);
        effects := effects + spawned;
      }
    }

    method HandleFloorReset(a: Answers) returns (replaced: bool, effects: seq<Effect>)
      requires Valid()
      modifies this
      ensures Valid()
      ensures replaced == Spec.FloorWasReset(old(View()), a)
      ensures (View(), effects) == Spec.HandleFloorReset(old(View()), timeouts, a)
    {
      if helper.None? || helper.value !in sessionEpochs {
        return false, [];
      }
      if !state.Starting? && !state.Searching? && !state.Acquiring? && !state.Producing? {
        return false, [];
      }
      if a.currentEpoch.None? {
        return false, [];
      }
      if a.currentEpoch.value == sessionEpochs[helper.value] {
        return false, [];
      }
      effects := ReplaceHelper(a);
      replaced := true;
    }

    method HandleTick(a: Answers) returns (effects: seq<Effect>)
      requires Valid()
      modifies this
      ensures Valid()
      ensures (View(), effects) == Spec.HandleTick(old(View()), timeouts, a)
    {
      Spec.TickStands(View(), timeouts, a);
      if state.Terminated? || state.Idle? || state.Disabled? {
        return [];
      }
      var replaced;
      replaced, effects := HandleFloorReset(a);
      if replaced {
        return;
      }
      match state {
        case Starting =>
          if a.now - startedAtMs > timeouts.readyMs {
            effects := EndSession(a.now);
          }
        case Cooldown =>
          if a.now >= retryAtMs {
            effects := SpawnSession(a);
          }
        case Stopping =>
          if a.now - stoppedSentAtMs > timeouts.stoppedAckMs {
            effects := EndSession(a.now);
          }
        case Producing | Searching | Acquiring =>
          if a.now - lastFrameAtMs > timeouts.frameStallMs {
            effects := EndSession(a.now);
          }
        case _ =>
      }
    }

    method Shutdown(exited: bool, ack: Option<Option<nat>>) returns (effects: seq<Effect>)
      requires Valid()
      modifies this
      ensures Valid()
      ensures (View(), effects) == Spec.Shutdown(old(View()), exited, ack)
    {
      Spec.ShutdownStands(View(), timeouts, exited, ack);
      effects := [];
      if state.Terminated? {
        return;
      }
      var asked, raised, ended := [], [], [];
      if helper.Some? && !exited {
        if state.Producing? || state.Stopping? {
          asked := WriteCommand(StopProducing);
          if ack.Some? && ack.value.Some? {
            raised := RaiseFloor(ack.value.value, helper.value);
          }
        }
        ended := [EndedHelper(helper.value)];
        helper := None;
      }
      var released := ReleaseLock();
      effects := asked + raised + ended + released;
      state := Terminated;
    }
  }
}
