/**
 * Helper after helper under one supervisor: each takes the far climb on from where the one
 * before left it, and together they offer every counter.
 */
module SupervisedSearch {
  import opened CarriedSearch
  import opened HelperFrames
  import opened HelperRuns
  import opened PacketIndex
  import opened PortLaws
  import opened PortSpec
  import opened Runs
  import opened Wrappers
  import HandOuts
  import RolloverCoverage
  import RolloverSearch
  import R = SupervisorRuns
  import S = SupervisorSpec

  /** What all helpers of a port have in common. */
  datatype Setting = Setting(timeouts: S.Timeouts, ssrc: nat, every: int)

  /**
   * A helper process: spawned at the supervisor's event `spawnedAt` with this floor and position;
   * what it did; the step of its last failed trial, and the event at which that was reported.
   */
  datatype Life = Life(spawnedAt: nat, floor: Option<nat>, from: Option<nat>, steps: seq<Step>,
                       failedStep: nat, failedAt: nat)

  function Position(from: Option<nat>): Option<int> {
    if from.None? then None else Some(from.value)
  }

  function HelperOf(g: Setting, l: Life): Helper {
    Rebuilt(Started(g.ssrc, l.floor, Position(l.from), g.every))
  }

  function PlantAt(g: Setting, inputs: seq<R.Input>, n: nat): R.Plant
    requires n <= |inputs|
  {
    Run(R.After, R.NewPlant(g.timeouts), inputs[..n])
  }

  /** The event spawns a helper and writes it this floor and this position. */
  predicate Spawns(p: R.Plant, i: R.Input, floor: Option<nat>, from: Option<nat>) {
    S.Spawned(p.next) in R.Handle(p, i).1 && S.Wrote(p.next, S.Init(floor, from)) in R.Handle(p, i).1
  }

  function FailFrame(h: Helper): Option<Frame> {
    var frames := Switch(h.port).1;
    if frames == [] then None else Some(frames[0])
  }

  /** A helper that ran one search, and whose last failed trial the supervisor heard of while it was current. */
  predicate IsLife(g: Setting, inputs: seq<R.Input>, l: Life) {
    var h := HelperOf(g, l);
    && l.spawnedAt < l.failedAt < |inputs|
    && Spawns(PlantAt(g, inputs, l.spawnedAt), inputs[l.spawnedAt], l.floor, l.from)
    && KeepsSearch(h, l.steps, |l.steps|)
    && l.failedStep < |l.steps| && CallsSearch(HelperRuns.Before(h, l.steps, l.failedStep), l.steps[l.failedStep])
    && (forall n :: l.failedStep < n < |l.steps| ==> !CallsSearch(HelperRuns.Before(h, l.steps, n), l.steps[n]))
    && var session := PlantAt(g, inputs, l.spawnedAt).next;
       var p := PlantAt(g, inputs, l.failedAt);
       && p.supervisor.helper == Some(session) && S.HasHelper(p.supervisor.state)
       && Some(inputs[l.failedAt].event) == HeardOf(HelperRuns.Before(h, l.steps, l.failedStep), session)
  }

  function HeardOf(h: Helper, session: nat): Option<R.Event> {
    var f := FailFrame(h);
    if f.None? then None else Some(R.FrameArrived(f.value, session))
  }

  /** The next helper is spawned after that, with no further position reported and no reset noticed. */
  predicate Succeeds(g: Setting, inputs: seq<R.Input>, a: Life, b: Life) {
    && a.failedAt < b.spawnedAt < |inputs|
    && forall m :: a.failedAt < m <= b.spawnedAt ==> LeavesCarry(PlantAt(g, inputs, m), inputs[m])
  }

  predicate IsChain(g: Setting, inputs: seq<R.Input>, lives: seq<Life>) {
    && (forall k :: 0 <= k < |lives| ==> IsLife(g, inputs, lives[k]))
    && (forall k :: 0 <= k < |lives| - 1 ==> Succeeds(g, inputs, lives[k], lives[k + 1]))
  }

  /** A floor with this counter. */
  predicate OnCounter(floor: Option<nat>, base: nat) {
    (floor.Some? ==> floor.value <= INDEX_MAX) && S.FloorBase(floor) == base
  }

  // ---------------------------------------------------------------- one link

  lemma FailedTrialKeepsPosition(h: Helper, step: Step)
    requires CallsSearch(h, step)
    ensures FailFrame(h).Some? && FailFrame(h).value.AuthFail? && FailFrame(h).value.searchFrom.Some?
    ensures HelperRuns.After(h, step).port.carried == Position(FailFrame(h).value.searchFrom)
  {
  }

  lemma OthersKeepPosition(h: Helper, step: Step)
    requires !CallsSearch(h, step)
    ensures HelperRuns.After(h, step).port.carried == h.port.carried
  {
    match step
    case KeyRequested(_) =>
    case Authenticated(sn, at) => RecordLeaves(h.port, sn, at);
    case TickLooks =>
    case TickDecides(_, _) =>
    case TickSwitches(_) =>
    case KeyRemoved =>
    case FloorMoves =>
    case SearchRestarts =>
    case KeyForgotten =>
    case StartRead =>
    case TornDown =>
    case StopRead =>
    case FlushEnded =>
    case PipelineFailed =>
    case SignalReceived =>
  }

  predicate LeavesPosition(h: Helper, step: Step) {
    !CallsSearch(h, step)
  }

  /** What a helper reported last is the position it kept. */
  lemma ReportedIsKept(h: Helper, steps: seq<Step>, n: nat)
    requires n < |steps| && CallsSearch(HelperRuns.Before(h, steps, n), steps[n])
    requires forall m :: n < m < |steps| ==> LeavesPosition(HelperRuns.Before(h, steps, m), steps[m])
    ensures var f := FailFrame(HelperRuns.Before(h, steps, n));
            && f.Some? && f.value.AuthFail? && f.value.searchFrom.Some?
            && HelperRuns.Before(h, steps, |steps|).port.carried == Position(f.value.searchFrom)
  {
    var b := HelperRuns.Before(h, steps, n);
    FailedTrialKeepsPosition(b, steps[n]);
    RunStep(HelperRuns.After, h, steps, n);
    var inv := (t: Helper) => t.port.carried == Position(FailFrame(b).value.searchFrom);
    forall t, l | inv(t) && LeavesPosition(t, l)
      ensures inv(HelperRuns.After(t, l))
    {
      OthersKeepPosition(t, l);
    }
    Keeps(HelperRuns.After, inv, LeavesPosition, h, steps, n + 1, |steps|);
  }

  /** The position a spawn hands on: the one kept, if it belongs to this floor's counter. */
  function HandedOn(carry: Option<S.Carry>, floor: Option<nat>): Option<nat> {
    if carry.Some? && carry.value.base == S.FloorBase(floor) then Some(carry.value.searchFrom) else None
  }

  /** What the supervisor has written to a helper it has just spawned, and noted of it. */
  predicate HasSpawned(o: S.Outcome, session: nat, carry: Option<S.Carry>, floor: Option<nat>, from: Option<nat>) {
    from == HandedOn(carry, floor) && o.0.helper == Some(session) && o.0.sessionFloorBase == S.FloorBase(floor)
  }

  lemma SessionSpawns(s: S.Supervisor, t: S.Timeouts, a: S.Answers, session: nat, floor: Option<nat>, from: Option<nat>)
    requires var o := S.SpawnSession(s, t, a);
             S.Spawned(session) in o.1 && S.Wrote(session, S.Init(floor, from)) in o.1
    ensures HasSpawned(S.SpawnSession(s, t, a), session, s.searchFromCarry, floor, from)
  {
  }

  lemma ReplaceSpawns(s: S.Supervisor, t: S.Timeouts, a: S.Answers, session: nat, floor: Option<nat>, from: Option<nat>)
    requires var o := S.ReplaceHelper(s, t, a);
             S.Spawned(session) in o.1 && S.Wrote(session, S.Init(floor, from)) in o.1
    ensures HasSpawned(S.ReplaceHelper(s, t, a), session, None, floor, from)
  {
    var s1 := S.EndSession(s.(searchFromCarry := None), t, a.now).0;
    SessionSpawnsIfIn(s1.(backoffMs := t.restartMs), t, a, session, floor, from);
  }

  lemma SessionSpawnsIfIn(s: S.Supervisor, t: S.Timeouts, a: S.Answers, session: nat, floor: Option<nat>, from: Option<nat>)
    ensures var o := S.SpawnSession(s, t, a);
            S.Spawned(session) in o.1 && S.Wrote(session, S.Init(floor, from)) in o.1
            ==> HasSpawned(o, session, s.searchFromCarry, floor, from)
  {
  }

  lemma TickSpawns(s: S.Supervisor, t: S.Timeouts, a: S.Answers, session: nat, floor: Option<nat>, from: Option<nat>)
    requires var o := S.HandleTick(s, t, a);
             S.Spawned(session) in o.1 && S.Wrote(session, S.Init(floor, from)) in o.1
    ensures HasSpawned(S.HandleTick(s, t, a), session,
                       if S.FloorWasReset(s, a) then None else s.searchFromCarry, floor, from)
  {
    if S.FloorWasReset(s, a) {
      ReplaceSpawns(s, t, a, session, floor, from);
    } else if s.state.Cooldown? {
      SessionSpawns(s, t, a, session, floor, from);
    }
  }

  /** Whatever event it is that spawns. */
  lemma EventSpawns(p: R.Plant, i: R.Input, floor: Option<nat>, from: Option<nat>)
    requires Spawns(p, i, floor, from)
    ensures var reset := S.FloorWasReset(p.supervisor, R.Answering(p, i.answers)) && !i.event.StartCalled?;
            HasSpawned(R.Handle(p, i), p.next, if reset then None else p.supervisor.searchFromCarry, floor, from)
  {
    var s, t, a := p.supervisor, p.timeouts, R.Answering(p, i.answers);
    match i.event
    case StartCalled => SessionSpawns(s, t, a, p.next, floor, from);
    case FrameArrived(frame, session) => S.FramesSpawnNothing(s, t, frame, session, a, p.next);
    case TimerTicked => TickSpawns(s, t, a, p.next, floor, from);
    case ResetChecked =>
      if S.FloorWasReset(s, a) {
        ReplaceSpawns(s, t, a, p.next, floor, from);
      }
    case _ =>
  }

  // ---------------------------------------------------------------- from one life to the next

  /** For as long as this helper is the current one, the counter noted is its floor's. */
  predicate Notes(p: R.Plant, session: nat, base: nat) {
    && R.Sound(p) && session < p.next
    && (p.supervisor.helper == Some(session) ==> p.supervisor.sessionFloorBase == base)
  }

  /** The helper is gone, or the counter noted is the one before. */
  predicate LeavesBase(s: S.Supervisor, o: S.Outcome) {
    o.0.helper.Some? ==> o.0.sessionFloorBase == s.sessionFloorBase
  }

  lemma FrameLeavesBase(s: S.Supervisor, t: S.Timeouts, f: Frame, session: nat, a: S.Answers)
    ensures LeavesBase(s, S.HandleFrame(s, t, f, session, a))
  {
  }

  lemma FailedSpawnLeavesNone(s: S.Supervisor, t: S.Timeouts, a: S.Answers, next: nat)
    requires s.helper.None? && a.child in {None, Some(next)} && S.Spawned(next) !in S.SpawnSession(s, t, a).1
    ensures S.SpawnSession(s, t, a).0.helper.None?
  {
  }

  lemma ReplaceLeavesBase(s: S.Supervisor, t: S.Timeouts, a: S.Answers, next: nat)
    requires s.helper.Some? && a.child in {None, Some(next)} && S.Spawned(next) !in S.ReplaceHelper(s, t, a).1
    ensures LeavesBase(s, S.ReplaceHelper(s, t, a))
  {
    var (s1, e) := S.EndSession(s.(searchFromCarry := None), t, a.now);
    if s1.state.Cooldown? {
      var s2 := s1.(backoffMs := t.restartMs);
      var o := S.SpawnSession(s2, t, a);
      assert S.Spawned(next) !in o.1 by {
        assert S.ReplaceHelper(s, t, a).1 == e + o.1;
      }
      FailedSpawnLeavesNone(s2, t, a, next);
    }
  }

  lemma TickLeavesBase(s: S.Supervisor, t: S.Timeouts, a: S.Answers, next: nat)
    requires S.Stands(s, t) && s.helper.Some? && a.child in {None, Some(next)}
    requires S.Spawned(next) !in S.HandleTick(s, t, a).1
    ensures LeavesBase(s, S.HandleTick(s, t, a))
  {
    if S.FloorWasReset(s, a) {
      ReplaceLeavesBase(s, t, a, next);
    }
  }

  lemma BaseIsLeft(p: R.Plant, i: R.Input)
    requires R.Sound(p) && p.supervisor.helper.Some? && S.Spawned(p.next) !in R.Handle(p, i).1
    ensures LeavesBase(p.supervisor, R.Handle(p, i))
  {
    var s, t, a := p.supervisor, p.timeouts, R.Answering(p, i.answers);
    match i.event
    case StartCalled =>
    case FrameArrived(frame, session) => FrameLeavesBase(s, t, frame, session, a);
    case ProcessDied(_) =>
    case ExitSeen(_) =>
    case ErrorSeen(_) =>
    case TimerTicked => TickLeavesBase(s, t, a, p.next);
    case ResetChecked =>
      if S.FloorWasReset(s, a) {
        ReplaceLeavesBase(s, t, a, p.next);
      }
    case StopCalled(_) =>
  }

  lemma NotesStep(p: R.Plant, i: R.Input, session: nat, base: nat)
    requires Notes(p, session, base)
    ensures Notes(R.After(p, i), session, base)
  {
    R.SoundStep(p, i);
    if S.Spawned(p.next) in R.Handle(p, i).1 {
      R.SpawnedIsHelper(p, i);
    } else {
      R.HelperIsKept(p, i);
      if p.supervisor.helper == Some(session) {
        BaseIsLeft(p, i);
      }
    }
  }

  lemma NotedOnceSpawned(p: R.Plant, i: R.Input, floor: Option<nat>, from: Option<nat>)
    requires R.Sound(p) && Spawns(p, i, floor, from)
    ensures Notes(R.After(p, i), p.next, S.FloorBase(floor))
  {
    R.SoundStep(p, i);
    R.SpawnedIsHelper(p, i);
    EventSpawns(p, i, floor, from);
  }

  lemma NotedFromThen(g: Setting, inputs: seq<R.Input>, i: nat, n: nat, session: nat, base: nat)
    requires i <= n <= |inputs| && Notes(PlantAt(g, inputs, i), session, base)
    ensures Notes(PlantAt(g, inputs, n), session, base)
  {
    var inv, any := p => Notes(p, session, base), (p: R.Plant, i: R.Input) => true;
    forall p, l | inv(p) && any(p, l)
      ensures inv(R.After(p, l))
    {
      NotesStep(p, l, session, base);
    }
    Keeps(R.After, inv, any, R.NewPlant(g.timeouts), inputs, i, n);
  }

  /** From its spawn on. */
  lemma BaseIsNoted(g: Setting, inputs: seq<R.Input>, l: Life, n: nat)
    requires IsLife(g, inputs, l) && l.spawnedAt < n <= |inputs|
    ensures Notes(PlantAt(g, inputs, n), PlantAt(g, inputs, l.spawnedAt).next, S.FloorBase(l.floor))
  {
    var p := PlantAt(g, inputs, l.spawnedAt);
    R.AlwaysSound(g.timeouts, inputs[..l.spawnedAt]);
    NotedOnceSpawned(p, inputs[l.spawnedAt], l.floor, l.from);
    RunStep(R.After, R.NewPlant(g.timeouts), inputs, l.spawnedAt);
    NotedFromThen(g, inputs, l.spawnedAt + 1, n, p.next, S.FloorBase(l.floor));
  }

  /** What a helper has kept of its search when it is done. */
  function Kept(g: Setting, l: Life): Option<int> {
    HelperRuns.Before(HelperOf(g, l), l.steps, |l.steps|).port.carried
  }

  /** The next helper, on a floor with the same counter, is handed the position this one kept. */
  lemma LifeHandsOn(g: Setting, inputs: seq<R.Input>, a: Life, b: Life)
    requires IsLife(g, inputs, a) && IsLife(g, inputs, b) && Succeeds(g, inputs, a, b)
    requires S.FloorBase(a.floor) == S.FloorBase(b.floor)
    ensures Position(b.from) == Kept(g, a)
  {
    var h, session := HelperOf(g, a), PlantAt(g, inputs, a.spawnedAt).next;
    ReportedIsKept(h, a.steps, a.failedStep);
    var f := FailFrame(HelperRuns.Before(h, a.steps, a.failedStep)).value;
    BaseIsNoted(g, inputs, a, a.failedAt);
    CarriesOn(g, inputs, a.failedAt, b.spawnedAt, f, session);
    EventSpawns(PlantAt(g, inputs, b.spawnedAt), inputs[b.spawnedAt], b.floor, b.from);
  }

  lemma CarriesOn(g: Setting, inputs: seq<R.Input>, i: nat, n: nat, f: Frame, session: nat)
    requires i < n < |inputs| && f.AuthFail? && f.searchFrom.Some?
    requires var s := PlantAt(g, inputs, i).supervisor; s.helper == Some(session) && S.HasHelper(s.state)
    requires inputs[i].event == R.FrameArrived(f, session)
    requires forall m :: i < m <= n ==> LeavesCarry(PlantAt(g, inputs, m), inputs[m])
    ensures Carrying(PlantAt(g, inputs, n), PlantAt(g, inputs, i).supervisor.sessionFloorBase, f.searchFrom.value)
  {
    var base, far := PlantAt(g, inputs, i).supervisor.sessionFloorBase, f.searchFrom.value;
    FailIsCarried(PlantAt(g, inputs, i), inputs[i], f.failed, far, session);
    RunStep(R.After, R.NewPlant(g.timeouts), inputs, i);
    var inv := p => Carrying(p, base, far);
    forall p, l | inv(p) && LeavesCarry(p, l)
      ensures inv(R.After(p, l))
    {
      CarryStep(p, l, base, far);
    }
    Keeps(R.After, inv, LeavesCarry, R.NewPlant(g.timeouts), inputs, i + 1, n);
  }

  // ---------------------------------------------------------------- the chain

  function SearchOfLife(g: Setting, base: nat, l: Life): RolloverSearch.State {
    RolloverSearch.Start(base, Position(l.from), g.every)
  }

  /** How often a helper's search was called: once to begin with, and once for every failed trial. */
  function CallsOf(g: Setting, l: Life): nat {
    1 + Calls(HelperOf(g, l), l.steps, |l.steps|)
  }

  function AllCalls(g: Setting, lives: seq<Life>): seq<nat> {
    seq(|lives|, k requires 0 <= k < |lives| => CallsOf(g, lives[k]))
  }

  lemma CounterOfLife(floor: Option<nat>, base: nat)
    requires OnCounter(floor, base)
    ensures FloorRoc(SentFloor(floor)) == base
  {
  }

  /** A search made from the position a helper kept is the next session of its climb. */
  lemma KeptIsNextSession(g: Setting, l: Life, base: nat)
    requires KeepsSearch(HelperOf(g, l), l.steps, |l.steps|) && OnCounter(l.floor, base) && base < ROC_MAX
    ensures RolloverSearch.Start(base, Kept(g, l), g.every)
         == RolloverCoverage.SessionSearch(SearchOfLife(g, base, l), [CallsOf(g, l)], 1)
  {
    CounterOfLife(l.floor, base);
    NextProcessIsNextSession(g.ssrc, l.floor, Position(l.from), g.every, l.steps, |l.steps|);
    assert IsNextSession(HelperOf(g, l), l.steps, |l.steps|, base, Position(l.from), g.every);
  }

  lemma LifeKeepsSearch(g: Setting, inputs: seq<R.Input>, l: Life)
    requires IsLife(g, inputs, l)
    ensures KeepsSearch(HelperOf(g, l), l.steps, |l.steps|)
  {
  }

  lemma LinkOf(g: Setting, inputs: seq<R.Input>, lives: seq<Life>, base: nat, k: nat)
    requires IsChain(g, inputs, lives) && 0 < k < |lives|
    requires OnCounter(lives[k - 1].floor, base) && OnCounter(lives[k].floor, base)
    ensures KeepsSearch(HelperOf(g, lives[k - 1]), lives[k - 1].steps, |lives[k - 1].steps|)
    ensures Position(lives[k].from) == Kept(g, lives[k - 1])
  {
    assert Succeeds(g, inputs, lives[k - 1], lives[k - 1 + 1]);
    LifeKeepsSearch(g, inputs, lives[k - 1]);
    LifeHandsOn(g, inputs, lives[k - 1], lives[k]);
  }

  /** One helper's search is the session after another's. */
  predicate Resumes(g: Setting, base: nat, a: Life, b: Life) {
    SearchOfLife(g, base, b) == RolloverCoverage.SessionSearch(SearchOfLife(g, base, a), [CallsOf(g, a)], 1)
  }

  lemma ChainResumes(g: Setting, inputs: seq<R.Input>, lives: seq<Life>, base: nat)
    requires IsChain(g, inputs, lives) && base < ROC_MAX
    requires forall m :: 0 <= m < |lives| ==> OnCounter(lives[m].floor, base)
    ensures forall m :: 0 < m < |lives| ==> Resumes(g, base, lives[m - 1], lives[m])
  {
    forall m | 0 < m < |lives|
      ensures Resumes(g, base, lives[m - 1], lives[m])
    {
      LinkOf(g, inputs, lives, base, m);
      KeptIsNextSession(g, lives[m - 1], base);
    }
  }

  /** The helpers' searches are then the sessions of one unbroken climb. */
  lemma ChainIsSessions(g: Setting, lives: seq<Life>, base: nat, k: nat)
    requires k < |lives| && forall m :: 0 < m < |lives| ==> Resumes(g, base, lives[m - 1], lives[m])
    ensures SearchOfLife(g, base, lives[k])
         == RolloverCoverage.SessionSearch(SearchOfLife(g, base, lives[0]), AllCalls(g, lives), k)
  {
    var starts := seq(|lives|, m requires 0 <= m < |lives| => SearchOfLife(g, base, lives[m]));
    var calls := AllCalls(g, lives);
    forall m | 0 < m < |starts|
      ensures starts[m] == RolloverCoverage.SessionSearch(starts[m - 1], [calls[m - 1]], 1)
    {
      assert Resumes(g, base, lives[m - 1], lives[m]);
    }
    RolloverCoverage.LinksMakeAChain(starts, calls, k);
  }

  lemma CallIsOffered(h: Helper, step: Step)
    requires CallsSearch(h, step)
    ensures HelperRuns.After(h, step).port.candidate == RolloverSearch.Step(SearchOf(h)).1
  {
  }

  /** Each call of the search makes its candidate the helper's. */
  lemma {:induction false} OfferedAtCall(h: Helper, steps: seq<Step>, n: nat, s0: RolloverSearch.State, m: nat)
    returns (at: nat)
    requires n <= |steps| && KeepsSearch(h, steps, n) && m <= Calls(h, steps, n)
    requires SearchOf(h) == RolloverSearch.After(s0, 1) && h.port.candidate == RolloverSearch.Yield(s0, 0)
    ensures at <= n && HelperRuns.Before(h, steps, at).port.candidate == RolloverSearch.Yield(s0, m)
    decreases n
  {
    assert steps[..0] == [];
    if m == 0 {
      at := 0;
    } else {
      CountStep(HelperRuns.After, CallsSearch, h, steps, n - 1);
      if m <= Calls(h, steps, n - 1) {
        at := OfferedAtCall(h, steps, n - 1, s0, m);
      } else {
        at := n;
        SearchMakesCalls(h, steps, n - 1, s0);
        RunStep(HelperRuns.After, h, steps, n - 1);
        CallIsOffered(HelperRuns.Before(h, steps, n - 1), steps[n - 1]);
      }
    }
  }

  /** A helper begins on its first call. */
  lemma FirstOffered(g: Setting, l: Life, base: nat)
    requires OnCounter(l.floor, base)
    ensures SearchOf(HelperOf(g, l)) == RolloverSearch.After(SearchOfLife(g, base, l), 1)
    ensures HelperOf(g, l).port.candidate == RolloverSearch.Yield(SearchOfLife(g, base, l), 0)
  {
    CounterOfLife(l.floor, base);
    SearchStarted(g.ssrc, l.floor, Position(l.from), g.every);
  }

  /** A datagram of the port's own asks for a key with the search so many calls on. */
  predicate IsAsked(h: Helper, steps: seq<Step>, at: nat, calls: nat) {
    at < |steps| && steps[at] == KeyRequested(h.port.ssrc) && Calls(h, steps, at) == calls
  }

  /** Nothing is accepted, and a key is asked for at every trial: before each call of the search and after the last. */
  ghost predicate TriesEach(h: Helper, steps: seq<Step>) {
    NoneAccepted(h, steps, |steps|)
    && forall calls: nat :: calls <= Calls(h, steps, |steps|) ==> IsTriedAfter(h, steps, calls)
  }

  ghost predicate IsTriedAfter(h: Helper, steps: seq<Step>, calls: nat) {
    exists at :: IsAsked(h, steps, at, calls)
  }

  lemma KeepsSearchUpTo(h: Helper, steps: seq<Step>, n: nat, k: nat)
    requires k <= n <= |steps| && KeepsSearch(h, steps, n)
    ensures KeepsSearch(h, steps, k)
  {
  }

  lemma NoneAcceptedUpTo(h: Helper, steps: seq<Step>, n: nat, k: nat)
    requires k <= n <= |steps| && NoneAccepted(h, steps, n)
    ensures NoneAccepted(h, steps, k)
  {
  }

  /** What is handed out at that trial is what the search yields there. */
  lemma HandedAtTrial(g: Setting, l: Life, base: nat, at: nat, call: nat)
    requires OnCounter(l.floor, base)
    requires KeepsSearch(HelperOf(g, l), l.steps, |l.steps|) && NoneAccepted(HelperOf(g, l), l.steps, |l.steps|)
    requires IsAsked(HelperOf(g, l), l.steps, at, call)
    ensures EventAt(HelperOf(g, l), l.steps, at) == HandedKey(RolloverSearch.Yield(SearchOfLife(g, base, l), call))
  {
    var h := HelperOf(g, l);
    KeepsSearchUpTo(h, l.steps, |l.steps|, at);
    NoneAcceptedUpTo(h, l.steps, |l.steps|, at);
    HandOuts.SsrcIsKept(h, l.steps, at);
    HandOuts.OwnKeyOnly(HelperRuns.Before(h, l.steps, at), g.ssrc);
    HandOuts.RebuildsBegin(h, SignalReceived, g.ssrc, l.floor, Position(l.from), g.every);
    HandOuts.HandsOutItsSearch(h, None, l.steps, at);
    SearchForLife(g, l, base);
  }

  lemma SearchForLife(g: Setting, l: Life, base: nat)
    requires OnCounter(l.floor, base)
    ensures HelperOf(g, l).port.ssrc == g.ssrc
    ensures HandOuts.SearchFor(HelperOf(g, l).port) == SearchOfLife(g, base, l)
  {
    CounterOfLife(l.floor, base);
  }

  /** Some helper's search yields the counter, at some call it makes. */
  lemma ChainYields(g: Setting, inputs: seq<R.Input>, lives: seq<Life>, base: nat, c: nat) returns (k: nat, call: nat)
    requires IsChain(g, inputs, lives) && base < ROC_MAX && base <= c <= ROC_MAX && |lives| >= ROC_MAX - base
    requires forall m :: 0 <= m < |lives| ==> OnCounter(lives[m].floor, base) && CallsOf(g, lives[m]) >= 18
    ensures k < |lives| && call < CallsOf(g, lives[k])
    ensures RolloverSearch.Yield(SearchOfLife(g, base, lives[k]), call) == c
  {
    var s0, calls := SearchOfLife(g, base, lives[0]), AllCalls(g, lives);
    RolloverCoverage.StartIsFresh(base, Position(lives[0].from), g.every);
    k, call := RolloverCoverage.ShortSessionsReachEveryCounter(s0, calls, c);
    ChainResumes(g, inputs, lives, base);
    ChainIsSessions(g, lives, base, k);
  }

  /**
   * Under one supervisor, however its events fall: helpers spawned one after another on floors of
   * the same counter, none of them with a search of fewer than eighteen calls, together make every
   * counter from the floor's up their candidate, once there have been as many as there are counters.
   */
  lemma SupervisedSearchesReachEveryCounter(g: Setting, inputs: seq<R.Input>, lives: seq<Life>, base: nat, c: nat)
    returns (k: nat, at: nat)
    requires IsChain(g, inputs, lives) && base < ROC_MAX && base <= c <= ROC_MAX && |lives| >= ROC_MAX - base
    requires forall m :: 0 <= m < |lives| ==> OnCounter(lives[m].floor, base) && CallsOf(g, lives[m]) >= 18
    ensures k < |lives| && at <= |lives[k].steps|
    ensures HelperRuns.Before(HelperOf(g, lives[k]), lives[k].steps, at).port.candidate == c
  {
    var call;
    k, call := ChainYields(g, inputs, lives, base, c);
    LifeKeepsSearch(g, inputs, lives[k]);
    FirstOffered(g, lives[k], base);
    at := OfferedAtCall(HelperOf(g, lives[k]), lives[k].steps, |lives[k].steps|, SearchOfLife(g, base, lives[k]), call);
  }

  /**
   * And when none of them accepts anything, and a datagram asks for a key at every trial, every
   * counter from the floor's up is handed to an authenticator.
   */
  lemma SupervisedHelpersReachEveryCounter(g: Setting, inputs: seq<R.Input>, lives: seq<Life>, base: nat, c: nat)
    returns (k: nat, at: nat)
    requires IsChain(g, inputs, lives) && base < ROC_MAX && base <= c <= ROC_MAX && |lives| >= ROC_MAX - base
    requires forall m :: 0 <= m < |lives| ==> OnCounter(lives[m].floor, base) && CallsOf(g, lives[m]) >= 18
    requires forall m :: 0 <= m < |lives| ==> TriesEach(HelperOf(g, lives[m]), lives[m].steps)
    ensures k < |lives| && at < |lives[k].steps|
    ensures EventAt(HelperOf(g, lives[k]), lives[k].steps, at) == HandedKey(c)
  {
    var call;
    k, call := ChainYields(g, inputs, lives, base, c);
    LifeKeepsSearch(g, inputs, lives[k]);
    at := WhereAsked(HelperOf(g, lives[k]), lives[k].steps, call);
    HandedAtTrial(g, lives[k], base, at, call);
  }

  lemma WhereAsked(h: Helper, steps: seq<Step>, calls: nat) returns (at: nat)
    requires TriesEach(h, steps) && calls <= Calls(h, steps, |steps|)
    ensures IsAsked(h, steps, at, calls)
  {
    assert IsTriedAfter(h, steps, calls);
    at :| IsAsked(h, steps, at, calls);
  }
}
