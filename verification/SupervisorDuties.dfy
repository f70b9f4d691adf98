/**
 * What a supervisor does, effect by effect: for each thing it can ask of the world, exactly
 * which events make it do so, and for each of its states, exactly what leads there.
 */
module SupervisorDuties {
  import opened Wrappers
  import opened HelperFrames
  import opened SupervisorSpec
  import opened SupervisorRuns
  import opened StreamMetadata
  import opened Runs

  /** The event is a frame, and the supervisor listens to the session it comes from as its helper. */
  predicate IsHeard(p: Plant, i: Input) {
    && i.event.FrameArrived? && p.supervisor.helper == Some(i.event.session)
    && !p.supervisor.state.Terminated? && !p.supervisor.state.Idle?
  }

  function Now(i: Input): int {
    i.answers.now
  }

  // ---------------------------------------------------------------- the floor

  function Raises(effects: seq<Effect>): seq<Effect> {
    if effects == [] then []
    else (if effects[0].AskedRaise? then [effects[0]] else []) + Raises(effects[1..])
  }

  lemma {:induction false} RaisesIn(a: seq<Effect>, b: seq<Effect>)
    ensures Raises(a + b) == Raises(a) + Raises(b)
  {
    if a == [] {
      assert a + b == b;
    } else {
      assert (a + b)[0] == a[0] && (a + b)[1..] == a[1..] + b;
      RaisesIn(a[1..], b);
    }
  }

  predicate RaisesNone(effects: seq<Effect>) {
    forall k :: 0 <= k < |effects| ==> !effects[k].AskedRaise?
  }

  lemma {:induction false} NoRaises(effects: seq<Effect>)
    requires RaisesNone(effects)
    ensures Raises(effects) == []
  {
    if effects == [] {
    } else {
      NoRaises(effects[1..]);
    }
  }

  lemma OneRaise(e: Effect, rest: seq<Effect>)
    requires e.AskedRaise? && RaisesNone(rest)
    ensures Raises([e] + rest) == [e]
  {
    NoRaises(rest);
    assert ([e] + rest)[1..] == rest;
  }

  /** The index an event brings as somebody's word on the floor, and whose word it is. */
  function WordOn(p: Plant, i: Input): Option<(nat, SessionId)> {
    var s := p.supervisor;
    match i.event
    case FrameArrived(frame, session) =>
      if s.state.Terminated? || s.state.Idle? then None
      else if frame.IndexReport? then Some((frame.index, session))
      else if frame.Stopped? && frame.last.Some? && s.helper == Some(session) then Some((frame.last.value, session))
      else None
    case StopCalled(ack) =>
      if && ack.Some? && ack.value.Some? && (s.state.Producing? || s.state.Stopping?)
         && s.helper.Some? && s.helper.value in p.alive
      then Some((ack.value.value, s.helper.value)) else None
    case _ => None
  }

  lemma SpawnRaisesNone(s: Supervisor, t: Timeouts, a: Answers)
    ensures RaisesNone(SpawnSession(s, t, a).1)
  {
  }

  lemma EndRaisesNone(s: Supervisor, t: Timeouts, now: int)
    ensures RaisesNone(EndSession(s, t, now).1)
  {
  }

  lemma TickRaisesNone(s: Supervisor, t: Timeouts, a: Answers)
    ensures RaisesNone(HandleTick(s, t, a).1) && RaisesNone(HandleFloorReset(s, t, a).1)
  {
    var s1 := EndSession(s.(searchFromCarry := None), t, a.now).0.(backoffMs := t.restartMs);
    EndRaisesNone(s.(searchFromCarry := None), t, a.now);
    EndRaisesNone(s, t, a.now);
    SpawnRaisesNone(s1, t, a);
    SpawnRaisesNone(s, t, a);
  }

  lemma FrameRaises(s: Supervisor, t: Timeouts, f: Frame, session: SessionId, a: Answers)
    ensures var effects := HandleFrame(s, t, f, session, a).1;
            var heard := !s.state.Terminated? && !s.state.Idle?;
            Raises(effects) ==
              if heard && f.IndexReport? then [AskedRaise(f.index, EpochOf(s, session))]
              else if heard && f.Stopped? && f.last.Some? && s.helper == Some(session)
              then [AskedRaise(f.last.value, EpochOf(s, session))] else []
  {
    var effects := HandleFrame(s, t, f, session, a).1;
    if s.state.Terminated? || s.state.Idle? {
    } else if f.IndexReport? {
      OneRaise(AskedRaise(f.index, EpochOf(s, session)), []);
    } else if f.Stopped? && f.last.Some? && s.helper == Some(session) {
      OneRaise(AskedRaise(f.last.value, EpochOf(s, session)), OnStopped(s.(lastFrameAtMs := a.now)).1);
    } else {
      FrameRaisesNone(s, t, f, session, a);
      NoRaises(effects);
    }
  }

  lemma FrameRaisesNone(s: Supervisor, t: Timeouts, f: Frame, session: SessionId, a: Answers)
    requires !f.IndexReport? && !(f.Stopped? && f.last.Some? && s.helper == Some(session))
    ensures RaisesNone(HandleFrame(s, t, f, session, a).1)
  {
    EndRaisesNone(s.(lastFrameAtMs := a.now), t, a.now);
  }

  lemma ShutdownRaises(s: Supervisor, exited: bool, ack: Option<Option<nat>>)
    ensures Raises(Shutdown(s, exited, ack).1) ==
              if && ack.Some? && ack.value.Some? && (s.state.Producing? || s.state.Stopping?)
                 && s.helper.Some? && !exited
              then [AskedRaise(ack.value.value, EpochOf(s, s.helper.value))] else []
  {
    var live := s.helper.Some? && !exited;
    if !s.state.Terminated? && live && (s.state.Producing? || s.state.Stopping?) {
      var stop, end := [Wrote(s.helper.value, StopProducing)], [EndedHelper(s.helper.value)];
      var raise := if ack.Some? && ack.value.Some?
                   then [AskedRaise(ack.value.value, EpochOf(s, s.helper.value))] else [];
      var rest := ReleaseLock(s.(helper := None)).1;
      assert Shutdown(s, exited, ack).1 == stop + raise + end + rest;
      RaisesIn(stop + raise + end, rest);
      RaisesIn(stop + raise, end);
      RaisesIn(stop, raise);
      NoRaises(stop);
      NoRaises(end);
      NoRaises(rest);
      if raise != [] {
        OneRaise(raise[0], []);
        assert raise == [raise[0]] + [];
      }
    } else {
      NoRaises(Shutdown(s, exited, ack).1);
    }
  }

  /**
   * Whatever the event: a word on the floor is passed on once, as it was given and under the epoch
   * of the session that gave it, and nothing else ever is.
   */
  lemma WordIsPassedOn(p: Plant, i: Input)
    ensures var word := WordOn(p, i);
            Raises(Handle(p, i).1) ==
              if word.None? then [] else [AskedRaise(word.value.0, EpochOf(p.supervisor, word.value.1))]
  {
    var s, t, a := p.supervisor, p.timeouts, Answering(p, i.answers);
    match i.event
    case StartCalled => SpawnRaisesNone(s, t, a); NoRaises(Handle(p, i).1);
    case FrameArrived(frame, session) => FrameRaises(s, t, frame, session, a);
    case ProcessDied(_) =>
    case ExitSeen(_) => NoRaises(Handle(p, i).1);
    case ErrorSeen(_) => NoRaises(Handle(p, i).1);
    case TimerTicked => TickRaisesNone(s, t, a); NoRaises(Handle(p, i).1);
    case ResetChecked => TickRaisesNone(s, t, a); NoRaises(Handle(p, i).1);
    case StopCalled(ack) => ShutdownRaises(s, s.helper.Some? && s.helper.value !in p.alive, ack);
  }

  // ---------------------------------------------------------------- helpers come and go

  /** The current helper has overstayed: it is not ready, does not stop, or says nothing any more. */
  predicate IsOverdue(p: Plant, now: int) {
    var s, t := p.supervisor, p.timeouts;
    || (s.state.Starting? && now - s.startedAtMs > t.readyMs)
    || (s.state.Stopping? && now - s.stoppedSentAtMs > t.stoppedAckMs)
    || (s.state in {Searching, Acquiring, Producing} && now - s.lastFrameAtMs > t.frameStallMs)
  }

  /** The event finds that the floor was reset under the helper. */
  predicate FindsReset(p: Plant, i: Input) {
    (i.event.TimerTicked? || i.event.ResetChecked?) && FloorWasReset(p.supervisor, i.answers)
  }

  /** The event takes the current helper's life, or finds it gone. */
  predicate LosesHelper(p: Plant, i: Input) {
    var s := p.supervisor;
    && s.helper.Some? && !s.state.Terminated?
    && match i.event
       case FrameArrived(frame, _) => IsHeard(p, i) && frame.Ready? && frame.v != PROTOCOL_VERSION
       case ExitSeen(session) => s.helper == Some(session) && session !in p.alive
       case ErrorSeen(session) => s.helper == Some(session)
       case TimerTicked => FindsReset(p, i) || IsOverdue(p, Now(i))
       case ResetChecked => FindsReset(p, i)
       case StopCalled(_) => s.helper.value in p.alive
       case _ => false
  }

  /** The event is an occasion to spawn a helper. */
  predicate WantsHelper(p: Plant, i: Input) {
    var s := p.supervisor;
    || (i.event.StartCalled? && s.state.Idle?)
    || (i.event.TimerTicked? && s.state.Cooldown? && Now(i) >= s.retryAtMs)
    || FindsReset(p, i)
  }

  /** And everything needed for it can be had. */
  predicate CanSpawn(a: Answers) {
    a.startEpoch.Some? && a.startFloor.Some? && a.child.Some?
  }

  predicate Spawning(p: Plant, i: Input) {
    WantsHelper(p, i) && CanSpawn(i.answers)
  }

  /** The process with this identity is ended for good. */
  predicate Ends(p: Plant, i: Input, session: SessionId) {
    || i.event == ErrorSeen(session)
    || (LosesHelper(p, i) && !i.event.ExitSeen? && p.supervisor.helper == Some(session))
  }

  lemma FloorResetAnswer(p: Plant, i: Input)
    ensures FloorWasReset(p.supervisor, Answering(p, i.answers)) == FloorWasReset(p.supervisor, i.answers)
  {
  }

  lemma FrameEnds(s: Supervisor, t: Timeouts, f: Frame, session: SessionId, a: Answers, x: SessionId)
    ensures EndedHelper(x) in HandleFrame(s, t, f, session, a).1 <==>
              && s.helper == Some(session) && x == session && !s.state.Terminated? && !s.state.Idle?
              && f.Ready? && f.v != PROTOCOL_VERSION
  {
  }

  lemma TickEnds(s: Supervisor, t: Timeouts, a: Answers, x: SessionId)
    requires Stands(s, t)
    ensures EndedHelper(x) in HandleTick(s, t, a).1 <==>
              s.helper == Some(x) && !s.state.Terminated? &&
              (FloorWasReset(s, a) || IsOverdue(Plant(t, s, {}, 0), a.now))
    ensures EndedHelper(x) in HandleFloorReset(s, t, a).1 <==> s.helper == Some(x) && FloorWasReset(s, a)
  {
  }

  /** Who is ended, by which events. */
  lemma EndedExactly(p: Plant, i: Input, session: SessionId)
    requires Sound(p)
    ensures EndedHelper(session) in Handle(p, i).1 <==> Ends(p, i, session)
  {
    var s, t, a := p.supervisor, p.timeouts, Answering(p, i.answers);
    FloorResetAnswer(p, i);
    match i.event
    case StartCalled =>
    case FrameArrived(frame, of) => FrameEnds(s, t, frame, of, a, session);
    case ProcessDied(_) =>
    case ExitSeen(_) =>
    case ErrorSeen(_) =>
    case TimerTicked => TickEnds(s, t, a, session);
    case ResetChecked => TickEnds(s, t, a, session);
    case StopCalled(_) =>
  }

  /** What is written to a helper when it is spawned: the floor just read, and the position kept for it. */
  function Introduction(p: Plant, i: Input): Command
    requires i.answers.startFloor.Some?
  {
    var floor := i.answers.startFloor.value;
    var carry := if FindsReset(p, i) then None else p.supervisor.searchFromCarry;
    Init(floor, if carry.Some? && carry.value.base == FloorBase(floor) then Some(carry.value.searchFrom) else None)
  }

  lemma SessionIntroduces(s: Supervisor, t: Timeouts, a: Answers, next: SessionId, c: Command)
    requires a.child in {None, Some(next)} && !IsGivenUp(s) && c.Init?
    ensures var o := SpawnSession(s, t, a);
            && (Spawned(next) in o.1 <==> CanSpawn(a))
            && (Wrote(next, c) in o.1 <==> CanSpawn(a) && c == Init(a.startFloor.value,
                 if && s.searchFromCarry.Some?
                    && s.searchFromCarry.value.base == FloorBase(a.startFloor.value)
                 then Some(s.searchFromCarry.value.searchFrom) else None))
  {
  }

  lemma ReplaceIntroduces(s: Supervisor, t: Timeouts, a: Answers, next: SessionId, c: Command)
    requires a.child in {None, Some(next)} && FloorWasReset(s, a) && s.helper.value != next && c.Init?
    ensures var o := ReplaceHelper(s, t, a);
            && (Spawned(next) in o.1 <==> CanSpawn(a))
            && (Wrote(next, c) in o.1 <==> CanSpawn(a) && c == Init(a.startFloor.value, None))
  {
    var (s1, e) := EndSession(s.(searchFromCarry := None), t, a.now);
    SessionIntroduces(s1.(backoffMs := t.restartMs), t, a, next, c);
  }

  lemma TickIntroduces(s: Supervisor, t: Timeouts, a: Answers, next: SessionId, c: Command)
    requires Stands(s, t) && a.child in {None, Some(next)} && c.Init? && (s.helper.Some? ==> s.helper.value != next)
    ensures var o := HandleTick(s, t, a);
            var wants := FloorWasReset(s, a) || (s.state.Cooldown? && a.now >= s.retryAtMs);
            && (Spawned(next) in o.1 <==> wants && CanSpawn(a))
            && (Wrote(next, c) in o.1 <==> wants && CanSpawn(a) && c == Init(a.startFloor.value,
                 if && !FloorWasReset(s, a) && s.searchFromCarry.Some?
                    && s.searchFromCarry.value.base == FloorBase(a.startFloor.value)
                 then Some(s.searchFromCarry.value.searchFrom) else None))
  {
    if FloorWasReset(s, a) {
      ReplaceIntroduces(s, t, a, next, c);
    } else if s.state.Cooldown? {
      SessionIntroduces(s, t, a, next, c);
    }
  }

  /** When a helper is spawned, and what it is told: on every occasion on which everything can be had. */
  lemma SpawnedExactly(p: Plant, i: Input, c: Command)
    requires Sound(p) && c.Init?
    ensures Spawned(p.next) in Handle(p, i).1 <==> Spawning(p, i)
    ensures Wrote(p.next, c) in Handle(p, i).1 <==> Spawning(p, i) && c == Introduction(p, i)
  {
    var s, t, a := p.supervisor, p.timeouts, Answering(p, i.answers);
    FloorResetAnswer(p, i);
    match i.event
    case StartCalled => if s.state.Idle? { SessionIntroduces(s, t, a, p.next, c); }
    case FrameArrived(frame, of) => FrameIntroducesNobody(s, t, frame, of, a, p.next, c);
    case ProcessDied(_) =>
    case ExitSeen(_) =>
    case ErrorSeen(_) =>
    case TimerTicked => TickIntroduces(s, t, a, p.next, c);
    case ResetChecked => if FloorWasReset(s, a) { ReplaceIntroduces(s, t, a, p.next, c); }
    case StopCalled(_) =>
  }

  lemma FrameIntroducesNobody(s: Supervisor, t: Timeouts, f: Frame, of: SessionId, a: Answers, next: SessionId, c: Command)
    requires c.Init?
    ensures Spawned(next) !in HandleFrame(s, t, f, of, a).1 && Wrote(next, c) !in HandleFrame(s, t, f, of, a).1
  {
    FramesSpawnNothing(s, t, f, of, a, next);
  }

  // ---------------------------------------------------------------- the lock

  /** The helper has authenticated the stream: for the first time, or still, with an attempt long ago. */
  predicate WantsLock(p: Plant, i: Input) {
    var s := p.supervisor;
    && IsHeard(p, i)
    && var f := i.event.frame;
       || (f.AuthOk? && f.first && s.state in {Searching, Acquiring})
       || (&& f.Stats? && f.authenticated > 0 && s.state.Acquiring?
           && Now(i) - s.lastAcquireAttemptMs >= p.timeouts.acquireRetryMs)
  }

  predicate IsGranted(p: Plant, i: Input) {
    WantsLock(p, i) && i.answers.acquire.Acquired?
  }

  /** The helper produces, and reports that the stream is there. */
  predicate RenewsLease(p: Plant, i: Input) {
    IsHeard(p, i) && i.event.frame.Stats? && i.event.frame.authenticated > 0 && p.supervisor.state.Producing?
  }

  predicate LosesLease(p: Plant, i: Input) {
    RenewsLease(p, i) && i.answers.refresh == Some(LostLock)
  }

  /** The helper says that it does not produce. */
  predicate HearsProductionEnd(p: Plant, i: Input) {
    IsHeard(p, i) && (i.event.frame.Stopped? || i.event.frame.AuthLost?)
  }

  /** A shutdown that has a producer to flush. */
  predicate Flushes(p: Plant, i: Input) {
    var s := p.supervisor;
    && i.event.StopCalled? && s.state in {Producing, Stopping}
    && s.helper.Some? && s.helper.value in p.alive
  }

  /** The row was somebody else's by the time the stop it led to was acknowledged: nothing to release. */
  predicate YieldsLock(p: Plant, i: Input) {
    && IsHeard(p, i) && i.event.frame.Stopped?
    && p.supervisor.state.Stopping? && !p.supervisor.releaseAfterStop
  }

  /** What happens to a held lock. */
  predicate LetsGo(p: Plant, i: Input) {
    p.supervisor.lockHeld && (LosesHelper(p, i) || HearsProductionEnd(p, i) || i.event.StopCalled?)
  }

  /** What these effects ask of the lock service, and of helper `h`. */
  predicate FrameAsks(p: Plant, i: Input, e: seq<Effect>, h: SessionId, n: nat) {
    && (AskedAcquire in e <==> WantsLock(p, i))
    && (AskedRefresh in e <==> RenewsLease(p, i))
    && (Wrote(h, StartProducing) in e <==> IsGranted(p, i) && p.supervisor.helper == Some(h))
    && (Wrote(h, StopProducing) in e <==> LosesLease(p, i) && p.supervisor.helper == Some(h))
    && (AskedRelease in e <==> LetsGo(p, i) && !YieldsLock(p, i))
    && (CountedBytes(n) in e <==> IsHeard(p, i) && i.event.frame.Stats? && i.event.frame.inputBytes == n)
  }

  lemma AuthAsks(p: Plant, i: Input, h: SessionId, n: nat)
    requires Sound(p) && i.event.FrameArrived? && (i.event.frame.AuthOk? || i.event.frame.AuthLost?)
    ensures FrameAsks(p, i, Handle(p, i).1, h, n)
  {
  }

  lemma StatsAsk(p: Plant, i: Input, h: SessionId, n: nat)
    requires Sound(p) && i.event.FrameArrived? && i.event.frame.Stats?
    ensures FrameAsks(p, i, Handle(p, i).1, h, n)
  {
  }

  lemma OthersAsk(p: Plant, i: Input, h: SessionId, n: nat)
    requires Sound(p) && i.event.FrameArrived?
    requires !i.event.frame.AuthOk? && !i.event.frame.AuthLost? && !i.event.frame.Stats?
    ensures FrameAsks(p, i, Handle(p, i).1, h, n)
  {
  }

  predicate AsksNothing(e: seq<Effect>, h: SessionId, n: nat) {
    && AskedAcquire !in e && AskedRefresh !in e && CountedBytes(n) !in e
    && Wrote(h, StartProducing) !in e && Wrote(h, StopProducing) !in e
  }

  lemma SpawnAsksNothing(s: Supervisor, t: Timeouts, a: Answers, h: SessionId, n: nat)
    ensures AsksNothing(SpawnSession(s, t, a).1, h, n) && AskedRelease !in SpawnSession(s, t, a).1
  {
  }

  lemma EndAsks(s: Supervisor, t: Timeouts, now: int, h: SessionId, n: nat)
    ensures AsksNothing(EndSession(s, t, now).1, h, n)
    ensures AskedRelease in EndSession(s, t, now).1 <==> s.lockHeld && s.helper.Some?
  {
  }

  lemma ReplaceAsks(s: Supervisor, t: Timeouts, a: Answers, h: SessionId, n: nat)
    ensures AsksNothing(ReplaceHelper(s, t, a).1, h, n)
    ensures AskedRelease in ReplaceHelper(s, t, a).1 <==> s.lockHeld && s.helper.Some?
  {
    var ended := s.(searchFromCarry := None);
    EndAsks(ended, t, a.now, h, n);
    SpawnAsksNothing(EndSession(ended, t, a.now).0.(backoffMs := t.restartMs), t, a, h, n);
  }

  lemma TickAsks(p: Plant, a: Answers, h: SessionId, n: nat)
    requires Sound(p)
    ensures var s, t := p.supervisor, p.timeouts;
            && AsksNothing(HandleTick(s, t, a).1, h, n) && AsksNothing(HandleFloorReset(s, t, a).1, h, n)
            && (AskedRelease in HandleTick(s, t, a).1 <==>
                  s.lockHeld && s.helper.Some? && (FloorWasReset(s, a) || IsOverdue(p, a.now)))
            && (AskedRelease in HandleFloorReset(s, t, a).1 <==> s.lockHeld && FloorWasReset(s, a))
  {
    ReplaceAsks(p.supervisor, p.timeouts, a, h, n);
    EndAsks(p.supervisor, p.timeouts, a.now, h, n);
    SpawnAsksNothing(p.supervisor, p.timeouts, a, h, n);
  }

  lemma ShutdownAsks(s: Supervisor, exited: bool, ack: Option<Option<nat>>, h: SessionId, n: nat)
    ensures var e := Shutdown(s, exited, ack).1;
            && AskedAcquire !in e && AskedRefresh !in e && CountedBytes(n) !in e && Wrote(h, StartProducing) !in e
            && (Wrote(h, StopProducing) in e <==> s.helper == Some(h) && !exited && s.state in {Producing, Stopping})
            && (AskedRelease in e <==> s.lockHeld && !s.state.Terminated?)
  {
  }

  /** What is asked of the lock service and of the helper, by which events and no others. */
  lemma AskedExactly(p: Plant, i: Input, h: SessionId, n: nat)
    requires Sound(p)
    ensures var e := Handle(p, i).1;
            && (AskedAcquire in e <==> WantsLock(p, i))
            && (AskedRefresh in e <==> RenewsLease(p, i))
            && (Wrote(h, StartProducing) in e <==> IsGranted(p, i) && p.supervisor.helper == Some(h))
            && (Wrote(h, StopProducing) in e <==> (LosesLease(p, i) || Flushes(p, i)) && p.supervisor.helper == Some(h))
            && (AskedRelease in e <==> LetsGo(p, i) && !YieldsLock(p, i))
            && (CountedBytes(n) in e <==> IsHeard(p, i) && i.event.frame.Stats? && i.event.frame.inputBytes == n)
  {
    var s, t, a := p.supervisor, p.timeouts, Answering(p, i.answers);
    FloorResetAnswer(p, i);
    match i.event
    case StartCalled => SpawnAsksNothing(s, t, a, h, n);
    case FrameArrived(f, _) =>
      if f.AuthOk? || f.AuthLost? {
        AuthAsks(p, i, h, n);
      } else if f.Stats? {
        StatsAsk(p, i, h, n);
      } else {
        OthersAsk(p, i, h, n);
      }
    case ProcessDied(_) =>
    case ExitSeen(_) =>
    case ErrorSeen(_) =>
    case TimerTicked => TickAsks(p, a, h, n);
    case ResetChecked => TickAsks(p, a, h, n);
    case StopCalled(ack) => ShutdownAsks(s, s.helper.Some? && s.helper.value !in p.alive, ack, h, n);
  }

  /** The lock is held after an event if it was granted, or was held and not let go. */
  lemma LockAfter(p: Plant, i: Input)
    requires Sound(p)
    ensures SupervisorRuns.After(p, i).supervisor.lockHeld <==> IsGranted(p, i) || (p.supervisor.lockHeld && !LetsGo(p, i))
  {
    HandlingIsLawful(p, i);
    AskedExactly(p, i, 0, 0);
    var s, t, a := p.supervisor, p.timeouts, Answering(p, i.answers);
    FloorResetAnswer(p, i);
    if i.event.FrameArrived? {
      FrameLockAfter(p, i);
    }
  }

  lemma FrameLockAfter(p: Plant, i: Input)
    requires Sound(p) && i.event.FrameArrived?
    ensures SupervisorRuns.After(p, i).supervisor.lockHeld <==> IsGranted(p, i) || (p.supervisor.lockHeld && !LetsGo(p, i))
  {
    match i.event.frame
    case Ready(_) =>
    case Trial(_, _) =>
    case AuthOk(_, _, _, _) =>
    case AuthFail(_, _) =>
    case AuthLost =>
    case IndexReport(_) =>
    case ProducingStarted =>
    case Stopped(_) =>
    case Stats(_, _) =>
    case Fatal(_) =>
    case Notice =>
  }

  // ---------------------------------------------------------------- states and clocks

  /** The helper cannot run here, by its own last word. */
  predicate IsHopeless(s: Supervisor) {
    s.fatalReason in {Some(BadInit), Some(KeyInArgv), Some(UnsafeDebugEnv), Some(MissingElement)}
  }

  /** The helper has gone of itself, or was ended for an error of its process. */
  predicate HasExited(p: Plant, i: Input) {
    LosesHelper(p, i) && (i.event.ExitSeen? || i.event.ErrorSeen?)
  }

  predicate BecomesReady(p: Plant, i: Input) {
    IsHeard(p, i) && i.event.frame.Ready? && i.event.frame.v == PROTOCOL_VERSION && p.supervisor.state.Starting?
  }

  /** The state an event leads to. */
  function StateAfter(p: Plant, i: Input): State {
    var state := p.supervisor.state;
    if i.event.StopCalled? then Terminated
    else if Spawning(p, i) then Starting
    else if HasExited(p, i) && IsHopeless(p.supervisor) then Disabled
    else if LosesHelper(p, i) || WantsHelper(p, i) then Cooldown
    else if IsGranted(p, i) then Producing
    else if WantsLock(p, i) then Acquiring
    else if LosesLease(p, i) then Stopping
    else if BecomesReady(p, i) then Searching
    else if HearsProductionEnd(p, i) && state in {Producing, Stopping} then Searching
    else if IsHeard(p, i) && i.event.frame.AuthLost? && state.Acquiring? then Searching
    else state
  }

  /** When the supervisor has failed to have a helper, and will try again. */
  predicate Cools(p: Plant, i: Input) {
    StateAfter(p, i).Cooldown? && (LosesHelper(p, i) || WantsHelper(p, i))
  }

  /** The wait that comes next, before this event and after it: doubled by every failure, up to the bound. */
  function Doubled(backoff: nat, t: Timeouts): nat {
    if backoff * 2 < t.restartMaxMs then backoff * 2 else t.restartMaxMs
  }

  function WaitBefore(p: Plant, i: Input): nat {
    if FindsReset(p, i) then p.timeouts.restartMs else p.supervisor.backoffMs
  }

  function BackoffAfter(p: Plant, i: Input): nat {
    if Cools(p, i) then Doubled(WaitBefore(p, i), p.timeouts)
    else if BecomesReady(p, i) || FindsReset(p, i) then p.timeouts.restartMs
    else p.supervisor.backoffMs
  }

  /** Every field but the lock's and the helper's, as an event leaves it. */
  predicate Follows(p: Plant, i: Input, after: Supervisor) {
    var s := p.supervisor;
    && after.state == StateAfter(p, i)
    && after.lastFrameAtMs == (if IsHeard(p, i) || Spawning(p, i) then Now(i) else s.lastFrameAtMs)
    && after.startedAtMs == (if Spawning(p, i) then Now(i) else s.startedAtMs)
    && after.lastAcquireAttemptMs == (if WantsLock(p, i) then Now(i) else s.lastAcquireAttemptMs)
    && after.stoppedSentAtMs == (if LosesLease(p, i) then Now(i) else s.stoppedSentAtMs)
    && after.releaseAfterStop ==
         (if IsGranted(p, i) then true else if LosesLease(p, i) then false else s.releaseAfterStop)
    && (after.state.Cooldown? && Cools(p, i) ==> after.retryAtMs == Now(i) + WaitBefore(p, i))
    && (!Cools(p, i) && !FindsReset(p, i) ==> after.retryAtMs == s.retryAtMs)
    && after.backoffMs == BackoffAfter(p, i)
    && after.fatalReason ==
         (if IsHeard(p, i) && i.event.frame.Fatal? then Some(i.event.frame.reason)
          else if WantsHelper(p, i) then None else s.fatalReason)
  }

  lemma AuthFollows(p: Plant, i: Input)
    requires Sound(p) && i.event.FrameArrived? && (i.event.frame.AuthOk? || i.event.frame.AuthLost?)
    ensures Follows(p, i, Handle(p, i).0)
  {
  }

  lemma StatsFollow(p: Plant, i: Input)
    requires Sound(p) && i.event.FrameArrived? && i.event.frame.Stats?
    ensures Follows(p, i, Handle(p, i).0)
  {
  }

  lemma StoppedFollows(p: Plant, i: Input)
    requires Sound(p) && i.event.FrameArrived? && (i.event.frame.Stopped? || i.event.frame.Ready?)
    ensures Follows(p, i, Handle(p, i).0)
  {
  }

  lemma OthersFollow(p: Plant, i: Input)
    requires Sound(p) && i.event.FrameArrived? && !i.event.frame.AuthOk? && !i.event.frame.AuthLost?
    requires !i.event.frame.Stats? && !i.event.frame.Stopped? && !i.event.frame.Ready?
    ensures Follows(p, i, Handle(p, i).0)
  {
  }

  lemma HeardFollows(p: Plant, i: Input)
    requires Sound(p) && i.event.FrameArrived?
    ensures Follows(p, i, Handle(p, i).0)
  {
    match i.event.frame
    case AuthOk(_, _, _, _) => AuthFollows(p, i);
    case AuthLost => AuthFollows(p, i);
    case Stats(_, _) => StatsFollow(p, i);
    case Stopped(_) => StoppedFollows(p, i);
    case Ready(_) => StoppedFollows(p, i);
    case _ => OthersFollow(p, i);
  }

  lemma ResetFollows(p: Plant, i: Input)
    requires Sound(p) && FindsReset(p, i)
    ensures Follows(p, i, ReplaceHelper(p.supervisor, p.timeouts, Answering(p, i.answers)).0)
  {
  }

  lemma CooldownTickFollows(p: Plant, i: Input)
    requires Sound(p) && i.event.TimerTicked? && !FindsReset(p, i) && p.supervisor.state.Cooldown?
    ensures Follows(p, i, Handle(p, i).0)
  {
    FloorResetAnswer(p, i);
  }

  lemma QuietTickFollows(p: Plant, i: Input)
    requires Sound(p) && i.event.TimerTicked? && !FindsReset(p, i)
    ensures Follows(p, i, Handle(p, i).0)
  {
    if p.supervisor.state.Cooldown? {
      CooldownTickFollows(p, i);
    } else {
      FloorResetAnswer(p, i);
    }
  }

  lemma ExitFollows(p: Plant, i: Input)
    requires Sound(p) && (i.event.ExitSeen? || i.event.ErrorSeen?)
    ensures Follows(p, i, Handle(p, i).0)
  {
  }

  lemma CallFollows(p: Plant, i: Input)
    requires Sound(p) && (i.event.StartCalled? || i.event.StopCalled? || i.event.ProcessDied?)
    ensures Follows(p, i, Handle(p, i).0)
  {
  }

  /** Whatever the event, the supervisor is left as this table says. */
  lemma EventFollows(p: Plant, i: Input)
    requires Sound(p)
    ensures Follows(p, i, SupervisorRuns.After(p, i).supervisor)
  {
    FloorResetAnswer(p, i);
    match i.event
    case StartCalled => CallFollows(p, i);
    case FrameArrived(_, _) => HeardFollows(p, i);
    case ProcessDied(_) => CallFollows(p, i);
    case ExitSeen(_) => ExitFollows(p, i);
    case ErrorSeen(_) => ExitFollows(p, i);
    case TimerTicked => if FindsReset(p, i) { ResetFollows(p, i); } else { QuietTickFollows(p, i); }
    case ResetChecked => if FindsReset(p, i) { ResetFollows(p, i); }
    case StopCalled(_) => CallFollows(p, i);
  }

  // ---------------------------------------------------------------- who the helper is

  /** The helper's process is found gone after supervision ended. */
  predicate LeavesQuietly(p: Plant, i: Input) {
    && p.supervisor.state.Terminated? && p.supervisor.helper.Some?
    && (|| i.event == ErrorSeen(p.supervisor.helper.value)
        || (i.event == ExitSeen(p.supervisor.helper.value) && p.supervisor.helper.value !in p.alive))
  }

  /** Somebody reports how far his search has got. */
  predicate CarriesOn(p: Plant, i: Input) {
    && i.event.FrameArrived? && i.event.frame.AuthFail? && i.event.frame.searchFrom.Some?
    && !p.supervisor.state.Terminated? && !p.supervisor.state.Idle?
  }

  /** The floor was read for a helper, whether or not it could then be spawned. */
  predicate ReadsFloor(p: Plant, i: Input) {
    WantsHelper(p, i) && i.answers.startEpoch.Some? && i.answers.startFloor.Some?
  }

  /** The remaining fields, as an event leaves them. */
  predicate Remembers(p: Plant, i: Input, after: Supervisor) {
    var s := p.supervisor;
    && after.helper == (if Spawning(p, i) then Some(p.next)
                        else if LosesHelper(p, i) || LeavesQuietly(p, i) then None else s.helper)
    && after.sessionEpochs ==
         (if Spawning(p, i) then s.sessionEpochs[p.next := i.answers.startEpoch.value] else s.sessionEpochs)
    && after.sessionFloorBase ==
         (if ReadsFloor(p, i) then FloorBase(i.answers.startFloor.value) else s.sessionFloorBase)
    && after.searchFromCarry ==
         (if FindsReset(p, i) then None
          else if CarriesOn(p, i) then Some(Carry(s.sessionFloorBase, i.event.frame.searchFrom.value))
          else s.searchFromCarry)
  }

  lemma FrameRemembers(p: Plant, i: Input)
    requires Sound(p) && i.event.FrameArrived?
    ensures Remembers(p, i, Handle(p, i).0)
  {
    match i.event.frame
    case AuthOk(_, _, _, _) =>
    case AuthLost =>
    case Stats(_, _) =>
    case Stopped(_) =>
    case Ready(_) =>
    case _ =>
  }

  lemma ResetRemembers(p: Plant, i: Input)
    requires Sound(p) && FindsReset(p, i)
    ensures Remembers(p, i, ReplaceHelper(p.supervisor, p.timeouts, Answering(p, i.answers)).0)
  {
  }

  lemma OtherRemembers(p: Plant, i: Input)
    requires Sound(p) && !i.event.FrameArrived? && !FindsReset(p, i)
    ensures Remembers(p, i, Handle(p, i).0)
  {
    FloorResetAnswer(p, i);
    match i.event
    case StartCalled =>
    case ProcessDied(_) =>
    case ExitSeen(_) =>
    case ErrorSeen(_) =>
    case TimerTicked =>
    case ResetChecked =>
    case StopCalled(_) =>
  }

  /** And this one. */
  lemma EventRemembers(p: Plant, i: Input)
    requires Sound(p)
    ensures Remembers(p, i, SupervisorRuns.After(p, i).supervisor)
  {
    FloorResetAnswer(p, i);
    if i.event.FrameArrived? {
      FrameRemembers(p, i);
    } else if FindsReset(p, i) {
      ResetRemembers(p, i);
    } else {
      OtherRemembers(p, i);
    }
  }

  // ---------------------------------------------------------------- in which order

  /**
   * The stage at which a thing is done: the lease is asked for before the helper is commanded, the
   * helper asked to flush before its last word is raised, that before the helper is ended, the
   * helper dead before the lock goes, the lock gone before another helper is spawned, and that one
   * there before it is introduced.
   */
  function Stage(e: Effect): nat {
    match e
    case CountedBytes(_) => 0
    case AskedAcquire => 1
    case AskedRefresh => 1
    case Wrote(_, c) => if c.Init? then 7 else 2
    case AskedRaise(_, _) => 3
    case EndedHelper(_) => 4
    case AskedRelease => 5
    case Spawned(_) => 6
  }

  predicate InOrder(e: seq<Effect>) {
    forall m, n :: 0 <= m < n < |e| ==> Stage(e[m]) <= Stage(e[n])
  }

  lemma FrameInOrder(s: Supervisor, t: Timeouts, f: Frame, of: SessionId, a: Answers)
    ensures InOrder(HandleFrame(s, t, f, of, a).1)
  {
    match f
    case Stats(_, _) =>
    case AuthOk(_, _, _, _) =>
    case Stopped(_) =>
    case _ =>
  }

  lemma ReplaceInOrder(s: Supervisor, t: Timeouts, a: Answers)
    ensures InOrder(ReplaceHelper(s, t, a).1) && InOrder(EndSession(s, t, a.now).1) && InOrder(SpawnSession(s, t, a).1)
  {
  }

  lemma ShutdownInOrder(s: Supervisor, exited: bool, ack: Option<Option<nat>>)
    ensures InOrder(Shutdown(s, exited, ack).1)
  {
  }

  /** Every event's effects come in this order. */
  lemma EffectsInOrder(p: Plant, i: Input)
    ensures InOrder(Handle(p, i).1)
  {
    var s, t, a := p.supervisor, p.timeouts, Answering(p, i.answers);
    match i.event
    case StartCalled => ReplaceInOrder(s, t, a);
    case FrameArrived(frame, of) => FrameInOrder(s, t, frame, of, a);
    case ProcessDied(_) =>
    case ExitSeen(_) =>
    case ErrorSeen(_) =>
    case TimerTicked => ReplaceInOrder(s, t, a);
    case ResetChecked => ReplaceInOrder(s, t, a);
    case StopCalled(ack) => ShutdownInOrder(s, s.helper.Some? && s.helper.value !in p.alive, ack);
  }
}
