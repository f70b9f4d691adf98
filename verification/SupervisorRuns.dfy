/** One supervisor and the processes it spawned, through every sequence of queued events. */
module SupervisorRuns {
  import opened Wrappers
  import opened HelperFrames
  import opened SupervisorSpec
  import opened Runs

  /** `alive` are the helper processes that run; `next` is the identity of the next one. */
  datatype Plant = Plant(timeouts: Timeouts, supervisor: Supervisor, alive: set<SessionId>, next: SessionId)

  datatype Event =
    | StartCalled
    | FrameArrived(frame: Frame, session: SessionId)
    | ProcessDied(session: SessionId)
    | ExitSeen(session: SessionId)
    | ErrorSeen(session: SessionId)
    | TimerTicked
    | ResetChecked
    | StopCalled(ack: Option<Option<nat>>)

  datatype Input = Input(event: Event, answers: Answers)

  /** A spawn that succeeds makes a process never seen before. */
  function Answering(p: Plant, a: Answers): Answers {
    a.(child := if a.child.None? then None else Some(p.next))
  }

  /** What the supervisor does with one event. An exit is only seen of a process that is gone. */
  function Handle(p: Plant, i: Input): Outcome {
    var s, t, a := p.supervisor, p.timeouts, Answering(p, i.answers);
    match i.event
    case StartCalled => Start(s, t, a)
    case FrameArrived(frame, session) => HandleFrame(s, t, frame, session, a)
    case ProcessDied(_) => (s, [])
    case ExitSeen(session) => if session in p.alive then (s, []) else HandleExit(s, t, session, a.now)
    case ErrorSeen(session) => HandleError(s, t, session, a.now)
    case TimerTicked => HandleTick(s, t, a)
    case ResetChecked => HandleFloorReset(s, t, a)
    case StopCalled(ack) => Shutdown(s, s.helper.Some? && s.helper.value !in p.alive, ack)
  }

  /** Those of the running processes that outlive an event with this outcome. */
  function Outliving(p: Plant, e: Event, o: Outcome): set<SessionId> {
    set x | x in p.alive && EndedHelper(x) !in o.1 && e != ProcessDied(x)
  }

  function Booked(p: Plant, e: Event, o: Outcome): Plant {
    var spawned := Spawned(p.next) in o.1;
    p.(supervisor := o.0,
       alive := Outliving(p, e, o) + (if spawned then {p.next} else {}),
       next := if spawned then p.next + 1 else p.next)
  }

  function Survivors(p: Plant, i: Input): set<SessionId> {
    Outliving(p, i.event, Handle(p, i))
  }

  function After(p: Plant, i: Input): Plant {
    Booked(p, i.event, Handle(p, i))
  }

  function NewPlant(t: Timeouts): Plant {
    Plant(t, New(t), {}, 0)
  }

  /** What a supervisor alone keeps, when `next` is above every session so far. */
  predicate Consistent(s: Supervisor, t: Timeouts, next: SessionId) {
    Stands(s, t) && (s.helper.Some? ==> s.helper.value < next)
  }

  predicate Sound(p: Plant) {
    var s := p.supervisor;
    && Consistent(s, p.timeouts, p.next)
    && (forall x :: x in p.alive ==> s.helper == Some(x))
    && (s.state.Terminated? ==> p.alive == {})
  }

  /**
   * A handler's outcome: consistent again; the helper is replaced only by the one just
   * spawned, and dropped only if `gone` already or ended here; giving up is final; and the
   * lock is taken, kept and let go by asking, `acquired` being what an acquisition said.
   */
  predicate Lawful(s: Supervisor, t: Timeouts, next: SessionId, gone: bool, acquired: bool, o: Outcome) {
    var spawned := Spawned(next) in o.1;
    && (AskedAcquire in o.1 ==> !s.lockHeld && (o.0.lockHeld <==> acquired))
    && (AskedRefresh in o.1 ==> s.lockHeld && o.0.lockHeld)
    && (AskedRelease in o.1 ==> s.lockHeld && !o.0.lockHeld)
    && (o.0.lockHeld && !s.lockHeld ==> AskedAcquire in o.1)
    && (s.helper.Some? && Wrote(s.helper.value, StartProducing) in o.1 ==> o.0.lockHeld)
    && Consistent(o.0, t, if spawned then next + 1 else next)
    && (spawned ==> o.0.state.Starting? && o.0.helper == Some(next) && (s.helper.Some? ==> gone || EndedHelper(s.helper.value) in o.1))
    && (!spawned ==> o.0.helper in {None, s.helper})
    && (s.helper.Some? && o.0.helper.None? ==> gone || EndedHelper(s.helper.value) in o.1)
    && (o.0.state.Terminated? && !s.state.Terminated? && s.helper.Some? ==> gone || EndedHelper(s.helper.value) in o.1)
    && (s.state.Terminated? ==> o.0.state.Terminated?)
    && (s.state.Disabled? ==> o.0.state in {Disabled, Terminated})
  }

  lemma SpawnIsLawful(s: Supervisor, t: Timeouts, a: Answers, next: SessionId)
    requires Consistent(s, t, next) && a.child in {None, Some(next)}
    requires s.state in {Idle, Cooldown}
    ensures Lawful(s, t, next, false, a.acquire.Acquired?, SpawnSession(s, t, a))
  {
  }

  lemma EndIsLawful(s: Supervisor, t: Timeouts, now: int, next: SessionId, acquired: bool)
    requires Consistent(s, t, next) && HasHelper(s.state)
    ensures Lawful(s, t, next, false, acquired, EndSession(s, t, now))
    ensures EndSession(s, t, now).0.state.Cooldown? && EndSession(s, t, now).0.helper.None?
  {
  }

  lemma AcquireIsLawful(s: Supervisor, t: Timeouts, a: Answers, next: SessionId)
    requires Consistent(s, t, next)
    ensures Lawful(s, t, next, false, a.acquire.Acquired?, AttemptAcquire(s, a))
  {
  }

  lemma RefreshIsLawful(s: Supervisor, t: Timeouts, a: Answers, next: SessionId)
    requires Consistent(s, t, next)
    ensures Lawful(s, t, next, false, a.acquire.Acquired?, RefreshLease(s, a))
  {
  }

  lemma StoppedIsLawful(s: Supervisor, t: Timeouts, next: SessionId, acquired: bool)
    requires Consistent(s, t, next)
    ensures Lawful(s, t, next, false, acquired, OnStopped(s))
    ensures Lawful(s, t, next, false, acquired, NotProducing(s))
  {
  }

  /** An effect that concerns neither lock nor process, made first, changes none of this. */
  lemma LawfulAfterNote(s: Supervisor, t: Timeouts, next: SessionId, acquired: bool, e: Effect, o: Outcome)
    requires Lawful(s, t, next, false, acquired, o)
    requires e.AskedRaise? || e.CountedBytes?
    ensures Lawful(s, t, next, false, acquired, Following([e], o))
    ensures Following([], o) == o
  {
    assert [] + o.1 == o.1;
  }

  lemma StatsAreLawful(s: Supervisor, t: Timeouts, f: Frame, session: SessionId, a: Answers, next: SessionId)
    requires Consistent(s, t, next) && f.Stats?
    ensures Lawful(s, t, next, false, a.acquire.Acquired?, CurrentFrame(s, t, f, session, a))
  {
    AcquireIsLawful(s, t, a, next);
    RefreshIsLawful(s, t, a, next);
    var o: Outcome :=
      if s.state.Producing? then if f.authenticated > 0 then RefreshLease(s, a) else (s, [])
      else if s.state.Acquiring? && f.authenticated > 0 && a.now - s.lastAcquireAttemptMs >= t.acquireRetryMs then
        AttemptAcquire(s, a)
      else (s, []);
    LawfulAfterNote(s, t, next, a.acquire.Acquired?, CountedBytes(f.inputBytes), o);
  }

  lemma CurrentFrameIsLawful(s: Supervisor, t: Timeouts, f: Frame, session: SessionId, a: Answers, next: SessionId)
    requires Consistent(s, t, next) && s.helper == Some(session) && !s.state.Terminated?
    ensures Lawful(s, t, next, false, a.acquire.Acquired?, CurrentFrame(s, t, f, session, a))
  {
    match f
    case Ready(_) => EndIsLawful(s, t, a.now, next, a.acquire.Acquired?);
    case AuthOk(_, _, _, _) => AcquireIsLawful(s, t, a, next);
    case AuthLost => StoppedIsLawful(s, t, next, a.acquire.Acquired?);
    case Stopped(last) =>
      StoppedIsLawful(s, t, next, a.acquire.Acquired?);
      LawfulAfterNote(s, t, next, a.acquire.Acquired?,
        AskedRaise(if last.Some? then last.value else 0, EpochOf(s, session)), OnStopped(s));
    case Stats(_, _) => StatsAreLawful(s, t, f, session, a, next);
    case _ =>
  }

  lemma FrameIsLawful(s: Supervisor, t: Timeouts, f: Frame, session: SessionId, a: Answers, next: SessionId)
    requires Consistent(s, t, next)
    ensures Lawful(s, t, next, false, a.acquire.Acquired?, HandleFrame(s, t, f, session, a))
  {
    if s.helper == Some(session) && !s.state.Terminated? && !s.state.Idle? {
      CurrentFrameIsLawful(s.(lastFrameAtMs := a.now), t, f, session, a, next);
    }
  }

  lemma ExitIsLawful(s: Supervisor, t: Timeouts, session: SessionId, now: int, next: SessionId, acquired: bool)
    requires Consistent(s, t, next)
    ensures Lawful(s, t, next, true, acquired, HandleExit(s, t, session, now))
    ensures s.helper != Some(session) ==> HandleExit(s, t, session, now) == (s, [])
  {
  }

  lemma ErrorIsLawful(s: Supervisor, t: Timeouts, session: SessionId, now: int, next: SessionId, gone: bool, acquired: bool)
    requires Consistent(s, t, next)
    ensures Lawful(s, t, next, gone, acquired, HandleError(s, t, session, now))
  {
  }

  lemma ShutdownIsLawful(s: Supervisor, t: Timeouts, ack: Option<Option<nat>>, next: SessionId, gone: bool, acquired: bool)
    requires Consistent(s, t, next)
    requires gone ==> s.helper.Some?
    ensures Lawful(s, t, next, gone, acquired, Shutdown(s, gone, ack))
  {
  }

  lemma ResetIsLawful(s: Supervisor, t: Timeouts, a: Answers, next: SessionId)
    requires Consistent(s, t, next) && a.child in {None, Some(next)}
    ensures Lawful(s, t, next, false, a.acquire.Acquired?, HandleFloorReset(s, t, a))
  {
    if FloorWasReset(s, a) {
      EndIsLawful(s.(searchFromCarry := None), t, a.now, next, a.acquire.Acquired?);
      var s1 := EndSession(s.(searchFromCarry := None), t, a.now).0.(backoffMs := t.restartMs);
      SpawnIsLawful(s1, t, a, next);
    }
  }

  lemma TickIsLawful(s: Supervisor, t: Timeouts, a: Answers, next: SessionId)
    requires Consistent(s, t, next) && a.child in {None, Some(next)}
    ensures Lawful(s, t, next, false, a.acquire.Acquired?, HandleTick(s, t, a))
  {
    if FloorWasReset(s, a) {
      ResetIsLawful(s, t, a, next);
    } else if HasHelper(s.state) {
      EndIsLawful(s, t, a.now, next, a.acquire.Acquired?);
    } else if s.state.Cooldown? {
      SpawnIsLawful(s, t, a, next);
    }
  }

  /** The helper is already gone when its exit is seen, or when a shutdown finds it so. */
  predicate HelperGone(p: Plant, i: Input) {
    p.supervisor.helper.Some? && p.supervisor.helper.value !in p.alive
  }

  lemma HandlingIsLawful(p: Plant, i: Input)
    requires Sound(p)
    ensures Lawful(p.supervisor, p.timeouts, p.next, HelperGone(p, i), i.answers.acquire.Acquired?, Handle(p, i))
  {
    var s, t, a := p.supervisor, p.timeouts, Answering(p, i.answers);
    match i.event
    case StartCalled => if s.state.Idle? { SpawnIsLawful(s, t, a, p.next); }
    case FrameArrived(frame, session) => FrameIsLawful(s, t, frame, session, a, p.next);
    case ProcessDied(_) =>
    case ExitSeen(session) => ExitIsLawful(s, t, session, a.now, p.next, a.acquire.Acquired?);
    case ErrorSeen(session) => ErrorIsLawful(s, t, session, a.now, p.next, HelperGone(p, i), a.acquire.Acquired?);
    case TimerTicked => TickIsLawful(s, t, a, p.next);
    case ResetChecked => ResetIsLawful(s, t, a, p.next);
    case StopCalled(ack) => ShutdownIsLawful(s, t, ack, p.next, HelperGone(p, i), a.acquire.Acquired?);
  }

  /** Lawful handling is all the process bookkeeping needs to know about an event. */
  lemma BookingKeepsSound(p: Plant, e: Event, acquired: bool, o: Outcome)
    requires Sound(p)
    requires Lawful(p.supervisor, p.timeouts, p.next,
                    p.supervisor.helper.Some? && p.supervisor.helper.value !in p.alive, acquired, o)
    ensures Sound(Booked(p, e, o))
    ensures Spawned(p.next) in o.1 ==> Outliving(p, e, o) == {}
  {
  }

  lemma SoundStep(p: Plant, i: Input)
    requires Sound(p)
    ensures Sound(After(p, i))
    ensures Spawned(p.next) in Handle(p, i).1 ==> Survivors(p, i) == {}
    ensures p.supervisor.state.Terminated? ==> After(p, i).supervisor.state.Terminated?
    ensures p.supervisor.state.Disabled? ==> After(p, i).supervisor.state in {Disabled, Terminated}
  {
    HandlingIsLawful(p, i);
    BookingKeepsSound(p, i.event, i.answers.acquire.Acquired?, Handle(p, i));
  }

  /** A process just spawned becomes the helper. */
  lemma SpawnedIsHelper(p: Plant, i: Input)
    requires Sound(p) && Spawned(p.next) in Handle(p, i).1
    ensures After(p, i).supervisor.helper == Some(p.next) && After(p, i).next == p.next + 1
  {
    HandlingIsLawful(p, i);
  }

  /** Otherwise the helper is the one before, or none. */
  lemma HelperIsKept(p: Plant, i: Input)
    requires Sound(p) && Spawned(p.next) !in Handle(p, i).1
    ensures After(p, i).supervisor.helper in {None, p.supervisor.helper} && After(p, i).next == p.next
    ensures p.supervisor.helper.Some? ==> p.supervisor.helper.value < p.next
  {
    HandlingIsLawful(p, i);
  }

  lemma AlwaysSound(t: Timeouts, inputs: seq<Input>)
    ensures Sound(Run(After, NewPlant(t), inputs))
  {
    forall p, i | Sound(p)
      ensures Sound(After(p, i))
    {
      SoundStep(p, i);
    }
    Always(After, Sound, NewPlant(t), inputs);
  }

  /**
   * After every event of every run the lock is held exactly while producing or stopping,
   * and then there is a current helper; no process but the current helper runs; and a
   * terminated port has none.
   */
  lemma LockHeldExactlyWhileProducing(t: Timeouts, inputs: seq<Input>)
    ensures var p := Run(After, NewPlant(t), inputs);
            && (p.supervisor.lockHeld <==> p.supervisor.state.Producing? || p.supervisor.state.Stopping?)
            && (p.supervisor.lockHeld ==> p.supervisor.helper.Some?)
            && (forall x :: x in p.alive ==> p.supervisor.helper == Some(x))
            && (p.supervisor.state.Terminated? ==> p.alive == {})
  {
    AlwaysSound(t, inputs);
  }

  /** When a helper is spawned, every process spawned before it has exited. */
  lemma SpawnsIntoAnEmptyPort(t: Timeouts, inputs: seq<Input>, n: nat)
    requires n < |inputs|
    requires var p := Run(After, NewPlant(t), inputs[..n]); Spawned(p.next) in Handle(p, inputs[n]).1
    ensures var p := Run(After, NewPlant(t), inputs[..n]);
            Survivors(p, inputs[n]) == {} && After(p, inputs[n]).alive == {p.next}
  {
    AlwaysSound(t, inputs[..n]);
    SoundStep(Run(After, NewPlant(t), inputs[..n]), inputs[n]);
  }

  predicate GivenUp(p: Plant, terminated: bool) {
    Sound(p) && (p.supervisor.state.Terminated? || (!terminated && p.supervisor.state.Disabled?))
  }

  /** A terminated port stays terminated, and a disabled one is only ever terminated. */
  lemma GivingUpIsFinal(t: Timeouts, inputs: seq<Input>, i: nat, n: nat)
    requires i <= n <= |inputs|
    ensures var before, after := Run(After, NewPlant(t), inputs[..i]).supervisor.state,
                                 Run(After, NewPlant(t), inputs[..n]).supervisor.state;
            && (before.Terminated? ==> after.Terminated?)
            && (before.Disabled? ==> after.Disabled? || after.Terminated?)
  {
    AlwaysSound(t, inputs[..i]);
    var any := (p: Plant, i: Input) => true;
    var state := Run(After, NewPlant(t), inputs[..i]).supervisor.state;
    if state.Terminated? || state.Disabled? {
      var inv := p => GivenUp(p, state.Terminated?);
      forall p, i | inv(p) && any(p, i)
        ensures inv(After(p, i))
      {
        SoundStep(p, i);
      }
      Keeps(After, inv, any, NewPlant(t), inputs, i, n);
    }
  }

  /**
   * The lock is let go only by the helper's own report that it is not producing, by its
   * exit, or after it was ended: whatever releases the lock leaves no live helper that was
   * not the one that reported.
   */
  lemma ReleasedOnlyWithoutAProducer(p: Plant, i: Input)
    requires Sound(p) && p.supervisor.lockHeld && !After(p, i).supervisor.lockHeld
    ensures || After(p, i).alive * p.alive == {}
            || (&& i.event.FrameArrived? && p.supervisor.helper == Some(i.event.session)
                && (i.event.frame.Stopped? || i.event.frame.AuthLost?))
  {
  }

  // ---------------------------------------------------------------- a session's epoch

  /** The session was started under this epoch, and is not one still to come. */
  predicate StartedUnder(p: Plant, session: SessionId, epoch: Option<int>) {
    session < p.next && session in p.supervisor.sessionEpochs && p.supervisor.sessionEpochs[session] == epoch
  }

  lemma SpawnKeepsEpochs(s: Supervisor, t: Timeouts, a: Answers, session: SessionId)
    requires session in s.sessionEpochs && a.child != Some(session)
    ensures var r := SpawnSession(s, t, a).0;
            session in r.sessionEpochs && r.sessionEpochs[session] == s.sessionEpochs[session]
  {
  }

  lemma EndKeepsEpochs(s: Supervisor, t: Timeouts, now: int)
    ensures EndSession(s, t, now).0.sessionEpochs == s.sessionEpochs
  {
  }

  lemma FrameKeepsEpochs(s: Supervisor, t: Timeouts, f: Frame, session: SessionId, a: Answers)
    ensures HandleFrame(s, t, f, session, a).0.sessionEpochs == s.sessionEpochs
  {
  }

  lemma ReplaceKeepsEpochs(s: Supervisor, t: Timeouts, a: Answers, session: SessionId)
    requires session in s.sessionEpochs && a.child != Some(session)
    ensures var r := ReplaceHelper(s, t, a).0;
            session in r.sessionEpochs && r.sessionEpochs[session] == s.sessionEpochs[session]
  {
    EndKeepsEpochs(s.(searchFromCarry := None), t, a.now);
    SpawnKeepsEpochs(EndSession(s.(searchFromCarry := None), t, a.now).0.(backoffMs := t.restartMs), t, a, session);
  }

  lemma EpochStep(p: Plant, i: Input, session: SessionId, epoch: Option<int>)
    requires StartedUnder(p, session, epoch)
    ensures StartedUnder(After(p, i), session, epoch)
  {
    var s, t, a := p.supervisor, p.timeouts, Answering(p, i.answers);
    match i.event
    case StartCalled => SpawnKeepsEpochs(s, t, a, session);
    case FrameArrived(frame, of) => FrameKeepsEpochs(s, t, frame, of, a);
    case ProcessDied(_) =>
    case ExitSeen(_) =>
    case ErrorSeen(_) =>
    case TimerTicked =>
      SpawnKeepsEpochs(s, t, a, session);
      EndKeepsEpochs(s, t, a.now);
      ReplaceKeepsEpochs(s, t, a, session);
    case ResetChecked => ReplaceKeepsEpochs(s, t, a, session);
    case StopCalled(_) =>
  }

  /**
   * A session's reports carry, for as long as they keep coming, the epoch that was read before
   * its floor was: no later session, reset or restart changes it.
   */
  lemma EpochIsFixed(t: Timeouts, inputs: seq<Input>, i: nat, n: nat, session: SessionId)
    requires i <= n <= |inputs|
    requires var p := Run(After, NewPlant(t), inputs[..i]);
             session < p.next && session in p.supervisor.sessionEpochs
    ensures EpochOf(Run(After, NewPlant(t), inputs[..n]).supervisor, session)
         == EpochOf(Run(After, NewPlant(t), inputs[..i]).supervisor, session)
  {
    var epoch := Run(After, NewPlant(t), inputs[..i]).supervisor.sessionEpochs[session];
    var inv := p => StartedUnder(p, session, epoch);
    var any := (p: Plant, i: Input) => true;
    forall p, i | inv(p) && any(p, i)
      ensures inv(After(p, i))
    {
      EpochStep(p, i, session, epoch);
    }
    Keeps(After, inv, any, NewPlant(t), inputs, i, n);
  }
}
