/** What a supervisor can be relied on to do, over every run of its queue. */
module SupervisorPromises {
  import opened Wrappers
  import opened HelperFrames
  import opened SupervisorSpec
  import opened SupervisorRuns
  import opened SupervisorDuties
  import opened StreamMetadata
  import opened Runs

  function PlantAt(t: Timeouts, inputs: seq<Input>, n: nat): Plant
    requires n <= |inputs|
  {
    Run(SupervisorRuns.After, NewPlant(t), inputs[..n])
  }

  function EffectsAt(t: Timeouts, inputs: seq<Input>, n: nat): seq<Effect>
    requires n < |inputs|
  {
    Handle(PlantAt(t, inputs, n), inputs[n]).1
  }

  // ---------------------------------------------------------------- the lock and the helper

  /** The helper is told to produce by exactly the events that take the lock, and it is there to be told. */
  lemma GrantStartsHelper(t: Timeouts, inputs: seq<Input>, n: nat, h: SessionId)
    requires n < |inputs|
    ensures var s, after := PlantAt(t, inputs, n).supervisor,
                            SupervisorRuns.After(PlantAt(t, inputs, n), inputs[n]).supervisor;
            && (Wrote(h, StartProducing) in EffectsAt(t, inputs, n) <==>
                  !s.lockHeld && after.lockHeld && s.helper == Some(h))
            && (!s.lockHeld && after.lockHeld ==> s.helper.Some? && after.helper == s.helper && after.state.Producing?)
  {
    var p, i := PlantAt(t, inputs, n), inputs[n];
    AlwaysSound(t, inputs[..n]);
    LockAfter(p, i);
    EventFollows(p, i);
    EventRemembers(p, i);
    AskedExactly(p, i, h, 0);
  }

  /** A stream authenticated for the first time, and a lock that is to be had: production starts. */
  lemma AuthenticatedIsProduced(t: Timeouts, inputs: seq<Input>, n: nat, session: SessionId)
    requires n < |inputs| && inputs[n].event.FrameArrived? && inputs[n].event.session == session
    requires inputs[n].event.frame.AuthOk? && inputs[n].event.frame.first && inputs[n].answers.acquire.Acquired?
    requires var s := PlantAt(t, inputs, n).supervisor; s.helper == Some(session) && s.state in {Searching, Acquiring}
    ensures Wrote(session, StartProducing) in EffectsAt(t, inputs, n)
    ensures var after := SupervisorRuns.After(PlantAt(t, inputs, n), inputs[n]).supervisor;
            after.lockHeld && after.state.Producing?
  {
    var p, i := PlantAt(t, inputs, n), inputs[n];
    AlwaysSound(t, inputs[..n]);
    AskedExactly(p, i, session, 0);
    LockAfter(p, i);
    EventFollows(p, i);
  }

  /** And when another has it, the supervisor asks again while the stream is there, each time the interval is over. */
  lemma RefusedAsksAgain(t: Timeouts, inputs: seq<Input>, n: nat, m: nat, session: SessionId)
    requires n < m < |inputs| && WantsLock(PlantAt(t, inputs, n), inputs[n]) && !inputs[n].answers.acquire.Acquired?
    requires forall k :: n < k < m ==> !WantsLock(PlantAt(t, inputs, k), inputs[k])
    requires PlantAt(t, inputs, m).supervisor.state.Acquiring? && PlantAt(t, inputs, m).supervisor.helper == Some(session)
    requires inputs[m].event.FrameArrived? && inputs[m].event.session == session
    requires inputs[m].event.frame.Stats? && inputs[m].event.frame.authenticated > 0
    ensures AskedAcquire in EffectsAt(t, inputs, m) <==> Now(inputs[m]) - Now(inputs[n]) >= t.acquireRetryMs
  {
    var at := Now(inputs[n]);
    AttemptStays(t, inputs, n, m);
    AlwaysSound(t, inputs[..m]);
    AskedExactly(PlantAt(t, inputs, m), inputs[m], session, 0);
    TimeoutsStay(t, inputs, m);
  }

  lemma AttemptStays(t: Timeouts, inputs: seq<Input>, n: nat, m: nat)
    requires n < m <= |inputs| && WantsLock(PlantAt(t, inputs, n), inputs[n])
    requires forall k :: n < k < m ==> !WantsLock(PlantAt(t, inputs, k), inputs[k])
    ensures PlantAt(t, inputs, m).supervisor.lastAcquireAttemptMs == Now(inputs[n])
  {
    var inv := (p: Plant) => Sound(p) && p.supervisor.lastAcquireAttemptMs == Now(inputs[n]);
    var quiet := (p: Plant, i: Input) => !WantsLock(p, i);
    AlwaysSound(t, inputs[..n]);
    EventFollows(PlantAt(t, inputs, n), inputs[n]);
    RunStep(SupervisorRuns.After, NewPlant(t), inputs, n);
    AlwaysSound(t, inputs[..n + 1]);
    forall p, i | inv(p) && quiet(p, i)
      ensures inv(SupervisorRuns.After(p, i))
    {
      SoundStep(p, i);
      EventFollows(p, i);
    }
    Keeps(SupervisorRuns.After, inv, quiet, NewPlant(t), inputs, n + 1, m);
  }

  lemma TimeoutsStay(t: Timeouts, inputs: seq<Input>, n: nat)
    requires n <= |inputs|
    ensures PlantAt(t, inputs, n).timeouts == t
  {
    var inv := (p: Plant) => p.timeouts == t;
    Always(SupervisorRuns.After, inv, NewPlant(t), inputs[..n]);
  }

  /** A lease found lost: the producer is told to stop, and the lock is kept in hand until it has. */
  lemma LostLeaseStopsHelper(t: Timeouts, inputs: seq<Input>, n: nat, session: SessionId)
    requires n < |inputs| && LosesLease(PlantAt(t, inputs, n), inputs[n])
    requires PlantAt(t, inputs, n).supervisor.helper == Some(session)
    ensures Wrote(session, StopProducing) in EffectsAt(t, inputs, n) && AskedRelease !in EffectsAt(t, inputs, n)
    ensures var after := SupervisorRuns.After(PlantAt(t, inputs, n), inputs[n]).supervisor;
            after.state.Stopping? && after.lockHeld && !after.releaseAfterStop
  {
    var p, i := PlantAt(t, inputs, n), inputs[n];
    AlwaysSound(t, inputs[..n]);
    AskedExactly(p, i, session, 0);
    LockAfter(p, i);
    EventFollows(p, i);
  }

  /** Until then it is the other's: what acknowledges the stop does not release it, whatever has been heard since. */
  lemma LostLeaseIsNotReleased(t: Timeouts, inputs: seq<Input>, n: nat, m: nat)
    requires n < m < |inputs| && LosesLease(PlantAt(t, inputs, n), inputs[n])
    requires forall k :: n < k < m ==> !LetsGo(PlantAt(t, inputs, k), inputs[k])
    requires IsHeard(PlantAt(t, inputs, m), inputs[m]) && inputs[m].event.frame.Stopped?
    ensures AskedRelease !in EffectsAt(t, inputs, m)
    ensures !SupervisorRuns.After(PlantAt(t, inputs, m), inputs[m]).supervisor.lockHeld
  {
    AlwaysSound(t, inputs[..n]);
    var p, i := PlantAt(t, inputs, n), inputs[n];
    EventFollows(p, i);
    LockAfter(p, i);
    RunStep(SupervisorRuns.After, NewPlant(t), inputs, n);
    AlwaysSound(t, inputs[..n + 1]);
    var quiet := (p: Plant, i: Input) => !LetsGo(p, i);
    forall p, i | Giving(p) && quiet(p, i)
      ensures Giving(SupervisorRuns.After(p, i))
    {
      GivingStep(p, i);
    }
    Keeps(SupervisorRuns.After, Giving, quiet, NewPlant(t), inputs, n + 1, m);
    AskedExactly(PlantAt(t, inputs, m), inputs[m], 0, 0);
    LockAfter(PlantAt(t, inputs, m), inputs[m]);
  }

  /** Giving up a lock that is another's. */
  predicate Giving(p: Plant) {
    Sound(p) && p.supervisor.state.Stopping? && !p.supervisor.releaseAfterStop
  }

  lemma GivingStep(p: Plant, i: Input)
    requires Giving(p) && !LetsGo(p, i)
    ensures Giving(SupervisorRuns.After(p, i))
  {
    SoundStep(p, i);
    EventFollows(p, i);
  }

  /** In every other case a lock let go is released. */
  lemma LockIsReleased(t: Timeouts, inputs: seq<Input>, n: nat)
    requires n < |inputs| && PlantAt(t, inputs, n).supervisor.lockHeld
    requires !SupervisorRuns.After(PlantAt(t, inputs, n), inputs[n]).supervisor.lockHeld
    ensures AskedRelease in EffectsAt(t, inputs, n) || !PlantAt(t, inputs, n).supervisor.releaseAfterStop
  {
    AlwaysSound(t, inputs[..n]);
    AskedExactly(PlantAt(t, inputs, n), inputs[n], 0, 0);
    LockAfter(PlantAt(t, inputs, n), inputs[n]);
  }

  // ---------------------------------------------------------------- time

  /** After a failure the next helper is spawned at the first tick at or after the end of the wait, and not before. */
  lemma RespawnsWhenDue(t: Timeouts, inputs: seq<Input>, n: nat, m: nat)
    requires n < m < |inputs| && Cools(PlantAt(t, inputs, n), inputs[n])
    requires forall k :: n < k < m ==> !WantsHelper(PlantAt(t, inputs, k), inputs[k]) && !inputs[k].event.StopCalled?
    requires inputs[m].event.TimerTicked?
    ensures var wait := WaitBefore(PlantAt(t, inputs, n), inputs[n]);
            Spawned(PlantAt(t, inputs, m).next) in EffectsAt(t, inputs, m) <==>
              Now(inputs[m]) >= Now(inputs[n]) + wait && CanSpawn(inputs[m].answers)
  {
    var at := Now(inputs[n]) + WaitBefore(PlantAt(t, inputs, n), inputs[n]);
    var inv, quiet := p => Waiting(p, at), (p: Plant, i: Input) => !WantsHelper(p, i) && !i.event.StopCalled?;
    AlwaysSound(t, inputs[..n]);
    EventFollows(PlantAt(t, inputs, n), inputs[n]);
    RunStep(SupervisorRuns.After, NewPlant(t), inputs, n);
    AlwaysSound(t, inputs[..n + 1]);
    forall p, i | inv(p) && quiet(p, i)
      ensures inv(SupervisorRuns.After(p, i))
    {
      WaitingStep(p, i, at);
    }
    Keeps(SupervisorRuns.After, inv, quiet, NewPlant(t), inputs, n + 1, m);
    SpawnedExactly(PlantAt(t, inputs, m), inputs[m], Init(None, None));
  }

  predicate Waiting(p: Plant, at: int) {
    Sound(p) && p.supervisor.state.Cooldown? && p.supervisor.retryAtMs == at
  }

  lemma WaitingStep(p: Plant, i: Input, at: int)
    requires Waiting(p, at) && !WantsHelper(p, i) && !i.event.StopCalled?
    ensures Waiting(SupervisorRuns.After(p, i), at)
  {
    SoundStep(p, i);
    EventFollows(p, i);
  }

  predicate SaysNothing(p: Plant, i: Input) {
    !IsHeard(p, i) && !Spawning(p, i)
  }

  predicate LastHeard(p: Plant, at: int) {
    Sound(p) && p.supervisor.lastFrameAtMs == at
  }

  lemma LastHeardStep(p: Plant, i: Input, at: int)
    requires LastHeard(p, at) && SaysNothing(p, i)
    ensures LastHeard(SupervisorRuns.After(p, i), at)
  {
    SoundStep(p, i);
    EventFollows(p, i);
  }

  lemma LastHeardStays(t: Timeouts, inputs: seq<Input>, n: nat, m: nat)
    requires n < m <= |inputs| && IsHeard(PlantAt(t, inputs, n), inputs[n])
    requires forall k :: n < k < m ==> SaysNothing(PlantAt(t, inputs, k), inputs[k])
    ensures LastHeard(PlantAt(t, inputs, m), Now(inputs[n]))
  {
    var inv := p => LastHeard(p, Now(inputs[n]));
    AlwaysSound(t, inputs[..n]);
    EventFollows(PlantAt(t, inputs, n), inputs[n]);
    RunStep(SupervisorRuns.After, NewPlant(t), inputs, n);
    AlwaysSound(t, inputs[..n + 1]);
    forall p, i | inv(p) && SaysNothing(p, i)
      ensures inv(SupervisorRuns.After(p, i))
    {
      LastHeardStep(p, i, Now(inputs[n]));
    }
    Keeps(SupervisorRuns.After, inv, SaysNothing, NewPlant(t), inputs, n + 1, m);
  }

  /** A helper that has said something is not ended for silence until the limit, and is at the first tick after it. */
  lemma SilenceIsEnded(t: Timeouts, inputs: seq<Input>, n: nat, m: nat, session: SessionId)
    requires n < m < |inputs| && IsHeard(PlantAt(t, inputs, n), inputs[n])
    requires forall k :: n < k < m ==> SaysNothing(PlantAt(t, inputs, k), inputs[k])
    requires inputs[m].event.TimerTicked? && !FindsReset(PlantAt(t, inputs, m), inputs[m])
    requires var s := PlantAt(t, inputs, m).supervisor;
             s.helper == Some(session) && s.state in {Searching, Acquiring, Producing}
    ensures EndedHelper(session) in EffectsAt(t, inputs, m) <==> Now(inputs[m]) - Now(inputs[n]) > t.frameStallMs
  {
    LastHeardStays(t, inputs, n, m);
    TimeoutsStay(t, inputs, m);
    EndedExactly(PlantAt(t, inputs, m), inputs[m], session);
  }

  predicate SaysNoReason(p: Plant, i: Input) {
    !WantsHelper(p, i) && !(IsHeard(p, i) && i.event.frame.Fatal?)
  }

  predicate Given(p: Plant, reason: FatalReason) {
    Sound(p) && p.supervisor.fatalReason == Some(reason)
  }

  lemma GivenStep(p: Plant, i: Input, reason: FatalReason)
    requires Given(p, reason) && SaysNoReason(p, i)
    ensures Given(SupervisorRuns.After(p, i), reason)
  {
    SoundStep(p, i);
    EventFollows(p, i);
  }

  lemma ReasonStays(t: Timeouts, inputs: seq<Input>, n: nat, m: nat)
    requires n < m <= |inputs| && IsHeard(PlantAt(t, inputs, n), inputs[n]) && inputs[n].event.frame.Fatal?
    requires forall k :: n < k < m ==> SaysNoReason(PlantAt(t, inputs, k), inputs[k])
    ensures Given(PlantAt(t, inputs, m), inputs[n].event.frame.reason)
  {
    var reason := inputs[n].event.frame.reason;
    var inv := p => Given(p, reason);
    AlwaysSound(t, inputs[..n]);
    EventFollows(PlantAt(t, inputs, n), inputs[n]);
    RunStep(SupervisorRuns.After, NewPlant(t), inputs, n);
    AlwaysSound(t, inputs[..n + 1]);
    forall p, i | inv(p) && SaysNoReason(p, i)
      ensures inv(SupervisorRuns.After(p, i))
    {
      GivenStep(p, i, reason);
    }
    Keeps(SupervisorRuns.After, inv, SaysNoReason, NewPlant(t), inputs, n + 1, m);
  }

  /** A helper's last word on why it ends decides whether another is ever started on the port. */
  lemma FatalDecides(t: Timeouts, inputs: seq<Input>, n: nat, m: nat)
    requires n < m < |inputs| && IsHeard(PlantAt(t, inputs, n), inputs[n]) && inputs[n].event.frame.Fatal?
    requires forall k :: n < k < m ==> SaysNoReason(PlantAt(t, inputs, k), inputs[k])
    requires HasExited(PlantAt(t, inputs, m), inputs[m])
    ensures var after := SupervisorRuns.After(PlantAt(t, inputs, m), inputs[m]).supervisor.state;
            if inputs[n].event.frame.reason in {BindFailed, StateChange} then after.Cooldown? else after.Disabled?
  {
    ReasonStays(t, inputs, n, m);
    EventFollows(PlantAt(t, inputs, m), inputs[m]);
  }

  // ---------------------------------------------------------------- the floor

  /** The session was spawned under this epoch: the one read before its floor was. */
  predicate SpawnedUnder(t: Timeouts, inputs: seq<Input>, n: nat, session: SessionId, epoch: Option<int>) {
    && n < |inputs| && PlantAt(t, inputs, n).next == session
    && Spawned(session) in EffectsAt(t, inputs, n) && inputs[n].answers.startEpoch == Some(epoch)
  }

  predicate IsUp(p: Plant) {
    Sound(p) && !p.supervisor.state.Idle?
  }

  lemma UpStep(p: Plant, i: Input)
    requires IsUp(p)
    ensures IsUp(SupervisorRuns.After(p, i))
  {
    SoundStep(p, i);
    EventFollows(p, i);
  }

  lemma UpOnceSpawned(t: Timeouts, inputs: seq<Input>, n: nat, m: nat, session: SessionId, epoch: Option<int>)
    requires SpawnedUnder(t, inputs, n, session, epoch) && n < m <= |inputs|
    ensures IsUp(PlantAt(t, inputs, m)) && EpochOf(PlantAt(t, inputs, m).supervisor, session) == epoch
  {
    var p := PlantAt(t, inputs, n);
    AlwaysSound(t, inputs[..n]);
    AlwaysSound(t, inputs[..n + 1]);
    RunStep(SupervisorRuns.After, NewPlant(t), inputs, n);
    SpawnedExactly(p, inputs[n], Init(None, None));
    EventFollows(p, inputs[n]);
    EventRemembers(p, inputs[n]);
    SpawnedIsHelper(p, inputs[n]);
    EpochIsFixed(t, inputs, n + 1, m, session);
    var any := (p: Plant, i: Input) => true;
    forall p, i | IsUp(p) && any(p, i)
      ensures IsUp(SupervisorRuns.After(p, i))
    {
      UpStep(p, i);
    }
    Keeps(SupervisorRuns.After, IsUp, any, NewPlant(t), inputs, n + 1, m);
  }

  /**
   * From its spawn until supervision ends, every index a session reports is raised once, as it was
   * reported and under the epoch that was read before the session's floor - whether the session is
   * the current one by then or not.
   */
  lemma ReportIsRaised(t: Timeouts, inputs: seq<Input>, n: nat, m: nat, session: SessionId, epoch: Option<int>)
    requires SpawnedUnder(t, inputs, n, session, epoch) && n < m < |inputs|
    requires inputs[m].event.FrameArrived? && inputs[m].event.session == session && inputs[m].event.frame.IndexReport?
    requires !PlantAt(t, inputs, m).supervisor.state.Terminated?
    ensures Raises(EffectsAt(t, inputs, m)) == [AskedRaise(inputs[m].event.frame.index, epoch)]
  {
    UpOnceSpawned(t, inputs, n, m, session, epoch);
    WordIsPassedOn(PlantAt(t, inputs, m), inputs[m]);
  }

  /** And so is a helper's last word when it stops, or when it acknowledges a shutdown's stop. */
  lemma LastWordIsRaised(t: Timeouts, inputs: seq<Input>, n: nat, m: nat, session: SessionId, epoch: Option<int>, last: nat)
    requires SpawnedUnder(t, inputs, n, session, epoch) && n < m < |inputs|
    requires PlantAt(t, inputs, m).supervisor.helper == Some(session)
    requires !PlantAt(t, inputs, m).supervisor.state.Terminated?
    requires || inputs[m].event == FrameArrived(Stopped(Some(last)), session)
             || (inputs[m].event == StopCalled(Some(Some(last))) && Flushes(PlantAt(t, inputs, m), inputs[m]))
    ensures Raises(EffectsAt(t, inputs, m)) == [AskedRaise(last, epoch)]
  {
    UpOnceSpawned(t, inputs, n, m, session, epoch);
    WordIsPassedOn(PlantAt(t, inputs, m), inputs[m]);
  }

  /** The states in which a helper's floor is looked after. */
  predicate IsWatched(s: Supervisor) {
    s.state in {Starting, Searching, Acquiring, Producing}
  }

  /**
   * A check of the floor ends the helper exactly when the epoch on the row can be read and is another
   * than the one the helper was spawned under, none among them - unless it is stopping; and then, if
   * another can be had, it is spawned at once, with no position carried from the old search.
   */
  lemma ResetReplacesHelper(t: Timeouts, inputs: seq<Input>, n: nat, m: nat, session: SessionId, epoch: Option<int>)
    requires SpawnedUnder(t, inputs, n, session, epoch) && n < m < |inputs| && inputs[m].event.ResetChecked?
    requires PlantAt(t, inputs, m).supervisor.helper == Some(session)
    ensures var s, a, e := PlantAt(t, inputs, m).supervisor, inputs[m].answers, EffectsAt(t, inputs, m);
            var found := IsWatched(s) && a.currentEpoch.Some? && a.currentEpoch.value != epoch;
            && (EndedHelper(session) in e <==> found)
            && (Spawned(PlantAt(t, inputs, m).next) in e <==> found && CanSpawn(a))
            && (found && CanSpawn(a) ==> Wrote(PlantAt(t, inputs, m).next, Init(a.startFloor.value, None)) in e)
  {
    var p, i := PlantAt(t, inputs, m), inputs[m];
    UpOnceSpawned(t, inputs, n, m, session, epoch);
    ResetIsFound(p, i, session, epoch);
    EndedExactly(p, i, session);
    SpawnedExactly(p, i, if i.answers.startFloor.Some? then Init(i.answers.startFloor.value, None) else Init(None, None));
  }

  lemma ResetIsFound(p: Plant, i: Input, session: SessionId, epoch: Option<int>)
    requires IsUp(p) && p.supervisor.helper == Some(session) && EpochOf(p.supervisor, session) == epoch
    requires i.event.TimerTicked? || i.event.ResetChecked?
    ensures FindsReset(p, i) <==>
              IsWatched(p.supervisor) && i.answers.currentEpoch.Some? && i.answers.currentEpoch.value != epoch
  {
  }
}
