/**
 * What a port's supervisor does with each queued event, on values. A handler's awaited
 * calls are answered by `Answers`, and what it asked of the world is listed, in order, as
 * effects.
 */
module SupervisorSpec {
  import opened Wrappers
  import opened PacketIndex
  import opened HelperFrames
  import opened StreamMetadata

  const PROTOCOL_VERSION: nat := 3

  datatype State =
    | Idle
    | Starting
    | Searching
    | Acquiring
    | Producing
    | Stopping
    | Cooldown
    | Disabled
    | Terminated

  /** Where a helper's far climb had got to, on which floor counter. */
  datatype Carry = Carry(base: nat, searchFrom: nat)

  datatype Command = Init(floor: Option<nat>, searchFrom: Option<nat>) | StartProducing | StopProducing

  type SessionId = nat

  datatype Timeouts = Timeouts(
    readyMs: nat,
    acquireRetryMs: nat,
    stoppedAckMs: nat,
    frameStallMs: nat,
    restartMs: nat,
    restartMaxMs: nat
  )

  /** The fields of `SrtpPortSupervisor`. */
  datatype Supervisor = Supervisor(
    state: State,
    lockHeld: bool,
    helper: Option<SessionId>,
    releaseAfterStop: bool,
    fatalReason: Option<FatalReason>,
    backoffMs: nat,
    retryAtMs: int,
    startedAtMs: int,
    stoppedSentAtMs: int,
    lastAcquireAttemptMs: int,
    lastFrameAtMs: int,
    searchFromCarry: Option<Carry>,
    sessionFloorBase: nat,
    sessionEpochs: map<SessionId, Option<int>>
  )

  /** What the calls a handler may make come back with; `None` is a call that threw. */
  datatype Answers = Answers(
    now: int,
    acquire: Acquisition,
    refresh: Option<LeaseOutcome>,
    currentEpoch: Option<Option<int>>,
    startEpoch: Option<Option<int>>,
    startFloor: Option<Option<nat>>,
    child: Option<SessionId>
  )

  datatype Effect =
    | Wrote(session: SessionId, command: Command)
    | AskedAcquire
    | AskedRefresh
    | AskedRelease
    | AskedRaise(index: nat, epoch: Option<int>)
    | EndedHelper(session: SessionId)
    | Spawned(session: SessionId)
    | CountedBytes(inputBytes: nat)

  type Outcome = (Supervisor, seq<Effect>)

  /** Effects already made, then those of what follows. */
  function Following(effects: seq<Effect>, o: Outcome): Outcome {
    (o.0, effects + o.1)
  }

  function New(t: Timeouts): Supervisor {
    Supervisor(Idle, false, None, true, None, t.restartMs, 0, 0, 0, 0, 0, None, 0, map[])
  }

  function EpochOf(s: Supervisor, session: SessionId): Option<int> {
    if session in s.sessionEpochs then s.sessionEpochs[session] else None
  }

  function Writing(s: Supervisor, command: Command): seq<Effect> {
    if s.helper.None? then [] else [Wrote(s.helper.value, command)]
  }

  predicate IsGivenUp(s: Supervisor) {
    s.state.Terminated? || s.state.Disabled?
  }

  function EnterCooldown(s: Supervisor, t: Timeouts, now: int): Supervisor {
    s.(retryAtMs := now + s.backoffMs,
       backoffMs := if s.backoffMs * 2 < t.restartMaxMs then s.backoffMs * 2 else t.restartMaxMs,
       state := Cooldown)
  }

  function FloorBase(floor: Option<nat>): nat {
    if floor.None? then 0 else Roc(floor.value)
  }

  /** A child that has been spawned becomes the current helper. */
  function Adopt(s: Supervisor, session: SessionId, epoch: Option<int>, now: int): Supervisor {
    s.(helper := Some(session),
       sessionEpochs := s.sessionEpochs[session := epoch],
       startedAtMs := now,
       lastFrameAtMs := now,
       state := Starting)
  }

  function SpawnSession(s: Supervisor, t: Timeouts, a: Answers): Outcome {
    var s1 := s.(fatalReason := None);
    if IsGivenUp(s) then (s1, [])
    else if a.startEpoch.None? || a.startFloor.None? then (EnterCooldown(s1, t, a.now), [])
    else
      var floor := a.startFloor.value;
      var base := FloorBase(floor);
      var carry := s.searchFromCarry;
      var searchFrom := if carry.Some? && carry.value.base == base then Some(carry.value.searchFrom) else None;
      var s2 := s1.(sessionFloorBase := base);
      if a.child.None? then (EnterCooldown(s2, t, a.now), [])
      else
        (Adopt(s2, a.child.value, a.startEpoch.value, a.now),
         [Spawned(a.child.value)] + [Wrote(a.child.value, Init(floor, searchFrom))])
  }

  function Start(s: Supervisor, t: Timeouts, a: Answers): Outcome {
    if !s.state.Idle? then (s, []) else SpawnSession(s, t, a)
  }

  function ReleaseLock(s: Supervisor): Outcome {
    if s.lockHeld then (s.(lockHeld := false), [AskedRelease]) else (s, [])
  }

  /** Ends the helper, and only then lets go of the lock. */
  function EndSession(s: Supervisor, t: Timeouts, now: int): Outcome {
    var (s1, e1) :=
      if s.helper.None? then (s, [])
      else Following([EndedHelper(s.helper.value)], ReleaseLock(s.(helper := None)));
    if s1.state.Terminated? then (s1, e1) else (EnterCooldown(s1, t, now), e1)
  }

  function AttemptAcquire(s: Supervisor, a: Answers): Outcome {
    if !s.state.Searching? && !s.state.Acquiring? then (s, [])
    else
      var s1 := s.(lastAcquireAttemptMs := a.now, state := Acquiring);
      if !a.acquire.Acquired? then (s1, [AskedAcquire])
      else
        (s1.(lockHeld := true, releaseAfterStop := true, state := Producing),
         [AskedAcquire] + Writing(s1, StartProducing))
  }

  function NotProducing(s: Supervisor): Outcome {
    if s.state.Producing? || s.state.Stopping? then
      var (s1, e) := ReleaseLock(s);
      (s1.(state := Searching), e)
    else if s.state.Acquiring? then (s.(state := Searching), [])
    else (s, [])
  }

  function RefreshLease(s: Supervisor, a: Answers): Outcome {
    if !s.state.Producing? then (s, [])
    else if a.refresh != Some(LostLock) then (s, [AskedRefresh])
    else
      (s.(releaseAfterStop := false, stoppedSentAtMs := a.now, state := Stopping),
       [AskedRefresh] + Writing(s, StopProducing))
  }

  function OnStopped(s: Supervisor): Outcome {
    if s.state.Stopping? then
      var (s1, e) := if s.releaseAfterStop then ReleaseLock(s) else (s.(lockHeld := false), []);
      (s1.(state := Searching), e)
    else if s.state.Producing? then
      var (s1, e) := ReleaseLock(s);
      (s1.(state := Searching), e)
    else (s, [])
  }

  function Carried(s: Supervisor, f: Frame): Supervisor {
    if f.AuthFail? && f.searchFrom.Some? then
      s.(searchFromCarry := Some(Carry(s.sessionFloorBase, f.searchFrom.value)))
    else s
  }

  /** A frame from a session that has been replaced: it may raise the floor, and carry. */
  function StaleFrame(s: Supervisor, f: Frame, session: SessionId): Outcome {
    if f.IndexReport? then (s, [AskedRaise(f.index, EpochOf(s, session))]) else (Carried(s, f), [])
  }

  function CurrentFrame(s: Supervisor, t: Timeouts, f: Frame, session: SessionId, a: Answers): Outcome {
    match f
    case Ready(v) =>
      if v != PROTOCOL_VERSION then EndSession(s, t, a.now)
      else if !s.state.Starting? then (s, [])
      else (s.(backoffMs := t.restartMs, state := Searching), [])
    case AuthOk(first, _, _, _) => if first then AttemptAcquire(s, a) else (s, [])
    case AuthFail(_, _) => (Carried(s, f), [])
    case AuthLost => NotProducing(s)
    case Stopped(last) =>
      Following(if last.Some? then [AskedRaise(last.value, EpochOf(s, session))] else [], OnStopped(s))
    case IndexReport(index) => (s, [AskedRaise(index, EpochOf(s, session))])
    case Stats(inputBytes, authenticated) =>
      Following([CountedBytes(inputBytes)],
        if s.state.Producing? then
          if authenticated > 0 then RefreshLease(s, a) else (s, [])
        else if s.state.Acquiring? && authenticated > 0 && a.now - s.lastAcquireAttemptMs >= t.acquireRetryMs then
          AttemptAcquire(s, a)
        else (s, []))
    case Fatal(reason) => (s.(fatalReason := Some(reason)), [])
    case Trial(_, _) => (s, [])
    case ProducingStarted => (s, [])
    case Notice => (s, [])
  }

  function HandleFrame(s: Supervisor, t: Timeouts, f: Frame, session: SessionId, a: Answers): Outcome {
    if s.state.Terminated? || s.state.Idle? then (s, [])
    else if s.helper != Some(session) then StaleFrame(s, f, session)
    else CurrentFrame(s.(lastFrameAtMs := a.now), t, f, session, a)
  }

  function HandleExit(s: Supervisor, t: Timeouts, session: SessionId, now: int): Outcome {
    if s.helper != Some(session) then (s, [])
    else
      var s1 := s.(helper := None);
      if s.state.Terminated? then (s1, [])
      else
        var (s2, e) := ReleaseLock(s1);
        if s.fatalReason.Some? && !IsRetryable(s.fatalReason.value) then (s2.(state := Disabled), e)
        else (EnterCooldown(s2, t, now), e)
  }

  /** An `error` event: the child is ended for good before it is treated as gone. */
  function HandleError(s: Supervisor, t: Timeouts, session: SessionId, now: int): Outcome {
    Following([EndedHelper(session)], HandleExit(s, t, session, now))
  }

  /** Whether the running helper's floor was reset under it, as far as can be read now. */
  predicate FloorWasReset(s: Supervisor, a: Answers) {
    && s.helper.Some?
    && s.helper.value in s.sessionEpochs
    && (s.state.Starting? || s.state.Searching? || s.state.Acquiring? || s.state.Producing?)
    && a.currentEpoch.Some?
    && a.currentEpoch.value != s.sessionEpochs[s.helper.value]
  }

  /** The helper is replaced at once: no backoff, and nothing carried from its search. */
  function ReplaceHelper(s: Supervisor, t: Timeouts, a: Answers): Outcome {
    var (s1, e) := EndSession(s.(searchFromCarry := None), t, a.now);
    var s2 := s1.(backoffMs := t.restartMs);
    if s2.state.Cooldown? then Following(e, SpawnSession(s2, t, a)) else (s2, e)
  }

  function HandleFloorReset(s: Supervisor, t: Timeouts, a: Answers): Outcome {
    if FloorWasReset(s, a) then ReplaceHelper(s, t, a) else (s, [])
  }

  function HandleTick(s: Supervisor, t: Timeouts, a: Answers): Outcome {
    if s.state.Terminated? || s.state.Idle? || s.state.Disabled? then (s, [])
    else if FloorWasReset(s, a) then HandleFloorReset(s, t, a)
    else
      match s.state
      case Starting => if a.now - s.startedAtMs > t.readyMs then EndSession(s, t, a.now) else (s, [])
      case Cooldown => if a.now >= s.retryAtMs then SpawnSession(s, t, a) else (s, [])
      case Stopping => if a.now - s.stoppedSentAtMs > t.stoppedAckMs then EndSession(s, t, a.now) else (s, [])
      case Producing | Searching | Acquiring =>
        if a.now - s.lastFrameAtMs > t.frameStallMs then EndSession(s, t, a.now) else (s, [])
      case _ => (s, [])
  }

  /**
   * A shutdown: ask a producer to flush, end the helper, release, and be done. `exited`
   * says that the helper is gone already; `ack` is its `stopped` frame, if one came in time.
   */
  function Shutdown(s: Supervisor, exited: bool, ack: Option<Option<nat>>): Outcome {
    if s.state.Terminated? then (s, [])
    else
      var live := s.helper.Some? && !exited;
      var flushing := live && (s.state.Producing? || s.state.Stopping?);
      var e1 :=
        (if flushing then [Wrote(s.helper.value, StopProducing)] else [])
        + (if flushing && ack.Some? && ack.value.Some?
           then [AskedRaise(ack.value.value, EpochOf(s, s.helper.value))] else [])
        + (if live then [EndedHelper(s.helper.value)] else []);
      var (s1, e2) := ReleaseLock(if live then s.(helper := None) else s);
      (s1.(state := Terminated), e1 + e2)
  }

  lemma FramesSpawnNothing(s: Supervisor, t: Timeouts, f: Frame, of: SessionId, a: Answers, session: SessionId)
    ensures Spawned(session) !in HandleFrame(s, t, f, of, a).1
  {
  }

  // ---------------------------------------------------------------- what every handler keeps

  /** States in which there is a current helper. */
  predicate HasHelper(state: State) {
    state in {Starting, Searching, Acquiring, Producing, Stopping}
  }

  /**
   * The lock is held exactly while producing or stopping; there is a current helper, with the
   * epoch it was started under, exactly in the states that have one; the backoff is in bounds.
   */
  predicate Stands(s: Supervisor, t: Timeouts) {
    && (s.lockHeld <==> s.state.Producing? || s.state.Stopping?)
    && (!s.state.Terminated? ==> (s.helper.Some? <==> HasHelper(s.state)))
    && (s.helper.Some? ==> s.helper.value in s.sessionEpochs)
    && (t.restartMs <= t.restartMaxMs ==> t.restartMs <= s.backoffMs <= t.restartMaxMs)
  }

  lemma SpawnStands(s: Supervisor, t: Timeouts, a: Answers)
    requires Stands(s, t) && !HasHelper(s.state)
    ensures Stands(SpawnSession(s, t, a).0, t)
  {
  }

  lemma EndStands(s: Supervisor, t: Timeouts, now: int)
    requires Stands(s, t) && HasHelper(s.state)
    ensures Stands(EndSession(s, t, now).0, t) && EndSession(s, t, now).0.state.Cooldown?
  {
  }

  lemma AcquireStands(s: Supervisor, t: Timeouts, a: Answers)
    requires Stands(s, t)
    ensures Stands(AttemptAcquire(s, a).0, t) && Stands(RefreshLease(s, a).0, t)
  {
  }

  lemma StoppedStands(s: Supervisor, t: Timeouts)
    requires Stands(s, t)
    ensures Stands(OnStopped(s).0, t) && Stands(NotProducing(s).0, t)
  {
  }

  lemma CurrentFrameStands(s: Supervisor, t: Timeouts, f: Frame, session: SessionId, a: Answers)
    requires Stands(s, t) && s.helper == Some(session) && !s.state.Terminated?
    ensures Stands(CurrentFrame(s, t, f, session, a).0, t)
  {
    match f
    case Ready(_) => EndStands(s, t, a.now);
    case AuthOk(_, _, _, _) => AcquireStands(s, t, a);
    case AuthLost => StoppedStands(s, t);
    case Stopped(_) => StoppedStands(s, t);
    case Stats(_, _) => AcquireStands(s, t, a);
    case _ =>
  }

  lemma ExitStands(s: Supervisor, t: Timeouts, session: SessionId, now: int)
    requires Stands(s, t)
    ensures Stands(HandleExit(s, t, session, now).0, t)
  {
  }

  lemma ReplaceStands(s: Supervisor, t: Timeouts, a: Answers)
    requires Stands(s, t) && HasHelper(s.state)
    ensures Stands(ReplaceHelper(s, t, a).0, t)
  {
    var ended := s.(searchFromCarry := None);
    EndStands(ended, t, a.now);
    SpawnStands(EndSession(ended, t, a.now).0.(backoffMs := t.restartMs), t, a);
  }

  lemma FloorResetStands(s: Supervisor, t: Timeouts, a: Answers)
    requires Stands(s, t)
    ensures Stands(HandleFloorReset(s, t, a).0, t)
  {
    if FloorWasReset(s, a) {
      ReplaceStands(s, t, a);
    }
  }

  lemma TickStands(s: Supervisor, t: Timeouts, a: Answers)
    requires Stands(s, t)
    ensures Stands(HandleTick(s, t, a).0, t)
  {
    if FloorWasReset(s, a) {
      FloorResetStands(s, t, a);
    } else if HasHelper(s.state) {
      EndStands(s, t, a.now);
    } else if s.state.Cooldown? {
      SpawnStands(s, t, a);
    }
  }

  lemma ShutdownStands(s: Supervisor, t: Timeouts, exited: bool, ack: Option<Option<nat>>)
    requires Stands(s, t)
    ensures Stands(Shutdown(s, exited, ack).0, t) && Shutdown(s, exited, ack).0.state.Terminated?
  {
  }
}
