/**
 * How the far climb's position gets from one session to the next: within a process through
 * the position kept on every failed trial, and from one process to the next through the
 * supervisor. This is what makes successive sessions the chain `SessionSearch` describes.
 */
module CarriedSearch {
  import opened Wrappers
  import opened PacketIndex
  import opened HelperFrames
  import opened PortSpec
  import opened HelperRuns
  import opened Runs
  import opened PortLaws
  import opened HelperSessions
  import RolloverCoverage
  import R = SupervisorRuns
  import S = SupervisorSpec

  /** The step makes a new search. */
  predicate StartsSearch(h: Helper, step: Step) {
    TearsDown(h, step) || (step.SearchRestarts? && h.tick.Restarting?)
  }

  /** The step is a call of the search: a candidate was tried and nothing authenticated under it. */
  predicate CallsSearch(h: Helper, step: Step) {
    step.TickSwitches? && step.tried && h.tick.Switching? && h.port.tally.keyAuthenticated == 0
  }

  lemma StartsWhereTheLastStopped(h: Helper, step: Step, sent: Option<nat>)
    requires SaneHelper(h, sent) && StartsSearch(h, step)
    ensures var next := After(h, step).port.search;
            next.base == h.port.search.base ==> next.farStart == h.port.search.far
  {
    match step
    case TickDecides(_, _) => ResetKeepsSane(h.port, sent, None);
    case SearchRestarts => RestartKeepsSane(h.port, sent, None);
    case TornDown => ResetKeepsSane(h.port, sent, h.tick.seed);
    case FlushEnded => ResetKeepsSane(h.port, sent, None);
    case PipelineFailed => ResetKeepsSane(h.port, sent, None);
  }

  /**
   * In every run of a helper, a search that begins on the same floor counter resumes the
   * far climb exactly where the search before left it.
   */
  lemma SessionsResumeTheClimb(ssrc: nat, floor: Option<nat>, from: Option<int>, every: int, steps: seq<Step>, e: nat)
    requires e < |steps|
    requires var h := Rebuilt(Started(ssrc, floor, from, every));
             && StartsSearch(Before(h, steps, e), steps[e])
             && Before(h, steps, e + 1).port.search.base == Before(h, steps, e).port.search.base
    ensures var h := Rebuilt(Started(ssrc, floor, from, every));
            Before(h, steps, e + 1).port.search.farStart == Before(h, steps, e).port.search.far
  {
    var h := Rebuilt(Started(ssrc, floor, from, every));
    var sent := SentFloor(floor);
    AlwaysSane(ssrc, floor, from, every, steps, e);
    StartsWhereTheLastStopped(Before(h, steps, e), steps[e], sent);
    RunStep(After, h, steps, e);
  }

  // ---------------------------------------------------------------- one process, one search

  /** How often the search was called in the first `n` steps. */
  function Calls(h: Helper, steps: seq<Step>, n: nat): nat
    requires n <= |steps|
  {
    Count(After, CallsSearch, h, steps[..n])
  }

  predicate LeavesSearch(h: Helper, step: Step) {
    !StartsSearch(h, step)
  }

  function SearchOf(h: Helper): RolloverSearch.State {
    h.port.search
  }

  function Called(s: RolloverSearch.State): RolloverSearch.State {
    RolloverSearch.Step(s).0
  }

  lemma SearchStep(h: Helper, step: Step)
    requires !StartsSearch(h, step)
    ensures SearchOf(After(h, step)) == if CallsSearch(h, step) then Called(SearchOf(h)) else SearchOf(h)
    ensures Next(h, step).1.SearchAdvanced? <==> CallsSearch(h, step)
  {
    match step
    case KeyRequested(_) =>
    case Authenticated(sn, at) => RecordLeaves(h.port, sn, at);
    case TickLooks =>
    case TickDecides(_, _) =>
    case TickSwitches(_) =>
    case KeyRemoved =>
    case FloorMoves =>
    case SearchRestarts =>
    case KeyForgotten =>
    case StartRead =>
    case TornDown =>
    case StopRead =>
    case FlushEnded =>
    case PipelineFailed =>
    case SignalReceived =>
  }

  predicate KeepsSearch(h: Helper, steps: seq<Step>, n: nat)
    requires n <= |steps|
  {
    forall m :: 0 <= m < n ==> LeavesSearch(Before(h, steps, m), steps[m])
  }

  lemma {:induction false} CallsIterate(s0: RolloverSearch.State, k: nat, j: nat)
    ensures Iterate(Called, k, RolloverSearch.After(s0, j)) == RolloverSearch.After(s0, j + k)
  {
    if k == 0 {
    } else {
      CallsIterate(s0, k - 1, j);
    }
  }

  /** Until it starts a new search, a helper's search is the one it started, so many calls on. */
  lemma SearchMakesCalls(h: Helper, steps: seq<Step>, n: nat, s0: RolloverSearch.State)
    requires n <= |steps| && SearchOf(h) == RolloverSearch.After(s0, 1) && KeepsSearch(h, steps, n)
    ensures SearchOf(Before(h, steps, n)) == RolloverSearch.After(s0, 1 + Calls(h, steps, n))
  {
    CallsAreCounted(h, steps, n);
    CallsIterate(s0, Calls(h, steps, n), 1);
  }

  lemma CallsAreCounted(h: Helper, steps: seq<Step>, n: nat)
    requires n <= |steps| && KeepsSearch(h, steps, n)
    ensures SearchOf(Before(h, steps, n)) == Iterate(Called, Calls(h, steps, n), SearchOf(h))
  {
    forall t, l | LeavesSearch(t, l)
      ensures SearchOf(After(t, l)) == if CallsSearch(t, l) then Called(SearchOf(t)) else SearchOf(t)
    {
      SearchStep(t, l);
    }
    Iterates(After, CallsSearch, SearchOf, Called, LeavesSearch, h, steps, n);
  }

  /** Two positions from which a far climb starts alike make the same search. */
  lemma SameStart(base: nat, carried: Option<int>, every: int, far: nat)
    requires base < far <= ROC_MAX && RolloverSearch.Start(base, carried, every).farStart == far
    ensures RolloverSearch.Start(base, carried, every) == RolloverSearch.Start(base, Some(far), every)
  {
  }

  /** The position a helper keeps is where its search's far climb stands. */
  lemma KeptPosition(ssrc: nat, floor: Option<nat>, from: Option<int>, every: int, steps: seq<Step>, n: nat)
    requires n <= |steps|
    ensures var p := Before(Rebuilt(Started(ssrc, floor, from, every)), steps, n).port;
            RolloverSearch.Start(p.search.base, p.carried, every).farStart == p.search.far
  {
    EveryIsKept(ssrc, floor, from, every, steps, n);
    AlwaysSane(ssrc, floor, from, every, steps, n);
  }

  /** Where that is, after so many calls on a search with somewhere to climb. */
  lemma CallsLeadTo(base: nat, from: Option<int>, every: int, k: nat)
    requires base < ROC_MAX
    ensures var s := RolloverSearch.After(RolloverSearch.Start(base, from, every), k);
            s.base == base < s.far <= ROC_MAX
  {
    RolloverCoverage.StartIsFresh(base, from, every);
    RolloverCoverage.FarAfter(RolloverSearch.Start(base, from, every), k);
    BaseIsKept(RolloverSearch.Start(base, from, every), k);
  }

  lemma {:induction false} BaseIsKept(s: RolloverSearch.State, k: nat)
    ensures RolloverSearch.After(s, k).base == s.base
  {
    if k == 0 {
    } else {
      BaseIsKept(s, k - 1);
    }
  }

  /**
   * A process and the next one, on a floor with the same counter: handed the position the first
   * kept, the next makes exactly the search of the next session in the chain that
   * `RolloverCoverage` proves unbroken.
   */
  lemma NextProcessIsNextSession(ssrc: nat, floor: Option<nat>, from: Option<int>, every: int, steps: seq<Step>, n: nat)
    requires n <= |steps| && FloorRoc(SentFloor(floor)) < ROC_MAX
    requires KeepsSearch(Rebuilt(Started(ssrc, floor, from, every)), steps, n)
    ensures IsNextSession(Rebuilt(Started(ssrc, floor, from, every)), steps, n, FloorRoc(SentFloor(floor)), from, every)
  {
    SearchStarted(ssrc, floor, from, every);
    KeptPosition(ssrc, floor, from, every, steps, n);
    NextSearch(Rebuilt(Started(ssrc, floor, from, every)), steps, n, FloorRoc(SentFloor(floor)), from, every);
  }

  /** The search made from the position kept after `n` steps, and the chain's next session. */
  predicate IsNextSession(h: Helper, steps: seq<Step>, n: nat, base: nat, from: Option<int>, every: int)
    requires n <= |steps| && base < ROC_MAX
  {
    RolloverSearch.Start(base, Before(h, steps, n).port.carried, every)
    == RolloverCoverage.SessionSearch(RolloverSearch.Start(base, from, every), [1 + Calls(h, steps, n)], 1)
  }

  lemma NextSearch(h: Helper, steps: seq<Step>, n: nat, base: nat, from: Option<int>, every: int)
    requires n <= |steps| && base < ROC_MAX && KeepsSearch(h, steps, n)
    requires h.port.search == RolloverSearch.After(RolloverSearch.Start(base, from, every), 1)
    requires var p := Before(h, steps, n).port;
             RolloverSearch.Start(p.search.base, p.carried, every).farStart == p.search.far
    ensures IsNextSession(h, steps, n, base, from, every)
  {
    SearchMakesCalls(h, steps, n, RolloverSearch.Start(base, from, every));
    var p := Before(h, steps, n).port;
    PositionResumes(base, from, every, 1 + Calls(h, steps, n), p.carried, p.search);
  }

  lemma PositionResumes(base: nat, from: Option<int>, every: int, calls: nat, carried: Option<int>,
                        search: RolloverSearch.State)
    requires base < ROC_MAX && search == RolloverSearch.After(RolloverSearch.Start(base, from, every), calls)
    requires RolloverSearch.Start(search.base, carried, every).farStart == search.far
    ensures RolloverSearch.Start(base, carried, every)
         == RolloverCoverage.SessionSearch(RolloverSearch.Start(base, from, every), [calls], 1)
  {
    CallsLeadTo(base, from, every, calls);
    SameStart(base, carried, every, search.far);
    ChainLink(base, from, every, calls);
  }

  lemma ChainLink(base: nat, from: Option<int>, every: int, calls: nat)
    requires base < ROC_MAX
    ensures var s0 := RolloverSearch.Start(base, from, every);
            RolloverCoverage.SessionSearch(s0, [calls], 1)
            == RolloverSearch.Start(base, Some(RolloverSearch.After(s0, calls).far), every)
  {
  }

  /** A helper's search, once it has started: the one its floor and position make, one call on. */
  lemma SearchStarted(ssrc: nat, floor: Option<nat>, from: Option<int>, every: int)
    ensures Started(ssrc, floor, from, every).search
         == RolloverSearch.After(RolloverSearch.Start(FloorRoc(SentFloor(floor)), from, every), 1)
  {
  }

  /** A helper's re-offer interval is the one it was started with. */
  lemma EveryIsKept(ssrc: nat, floor: Option<nat>, from: Option<int>, every: int, steps: seq<Step>, n: nat)
    requires n <= |steps|
    ensures Before(Rebuilt(Started(ssrc, floor, from, every)), steps, n).port.floorEvery == every
  {
    var inv := (t: Helper) => t.port.floorEvery == every;
    forall t, l | inv(t)
      ensures inv(After(t, l))
    {
      EveryStep(t, l);
    }
    Always(After, inv, Rebuilt(Started(ssrc, floor, from, every)), steps[..n]);
  }

  lemma EveryStep(h: Helper, step: Step)
    ensures After(h, step).port.floorEvery == h.port.floorEvery
  {
    match step
    case KeyRequested(_) =>
    case Authenticated(sn, at) => RecordLeaves(h.port, sn, at);
    case TickLooks =>
    case TickDecides(_, _) =>
    case TickSwitches(_) =>
    case KeyRemoved =>
    case FloorMoves =>
    case SearchRestarts =>
    case KeyForgotten =>
    case StartRead =>
    case TornDown =>
    case StopRead =>
    case FlushEnded =>
    case PipelineFailed =>
    case SignalReceived =>
  }

  // ---------------------------------------------------------------- one process to the next

  /** The supervisor keeps this position, for a floor with this counter. */
  predicate Carrying(p: R.Plant, base: nat, far: nat) {
    p.supervisor.searchFromCarry == Some(S.Carry(base, far))
  }

  /** The event reports no further position, and no reset of the floor is noticed with it. */
  predicate LeavesCarry(p: R.Plant, i: R.Input) {
    && !S.FloorWasReset(p.supervisor, R.Answering(p, i.answers))
    && (i.event.FrameArrived? && i.event.frame.AuthFail? ==> i.event.frame.searchFrom.None?)
  }

  lemma CarryStep(p: R.Plant, i: R.Input, base: nat, far: nat)
    requires Carrying(p, base, far) && LeavesCarry(p, i)
    ensures Carrying(R.After(p, i), base, far)
  {
    var s, t, a := p.supervisor, p.timeouts, R.Answering(p, i.answers);
    match i.event
    case StartCalled =>
    case FrameArrived(frame, session) => FrameLeavesCarry(s, t, frame, session, a);
    case ProcessDied(_) =>
    case ExitSeen(_) =>
    case ErrorSeen(_) =>
    case TimerTicked => TickLeavesCarry(s, t, a);
    case ResetChecked =>
    case StopCalled(_) =>
  }

  lemma FrameLeavesCarry(s: S.Supervisor, t: S.Timeouts, f: Frame, session: nat, a: S.Answers)
    requires f.AuthFail? ==> f.searchFrom.None?
    ensures S.HandleFrame(s, t, f, session, a).0.searchFromCarry == s.searchFromCarry
  {
  }

  lemma TickLeavesCarry(s: S.Supervisor, t: S.Timeouts, a: S.Answers)
    requires !S.FloorWasReset(s, a)
    ensures S.HandleTick(s, t, a).0.searchFromCarry == s.searchFromCarry
  {
  }

  /** What a spawn writes to its helper: the position, if the floor still has that counter. */
  predicate HandsOn(o: S.Outcome, session: nat, a: S.Answers, base: nat, far: nat) {
    && a.startFloor.Some?
    && S.Wrote(session, S.Init(a.startFloor.value, if S.FloorBase(a.startFloor.value) == base then Some(far) else None))
       in o.1
  }

  lemma SessionHandsOn(s: S.Supervisor, t: S.Timeouts, a: S.Answers, base: nat, far: nat, session: nat)
    requires s.searchFromCarry == Some(S.Carry(base, far)) && S.Spawned(session) in S.SpawnSession(s, t, a).1
    ensures HandsOn(S.SpawnSession(s, t, a), session, a, base, far)
  {
  }

  lemma TickHandsOn(s: S.Supervisor, t: S.Timeouts, a: S.Answers, base: nat, far: nat, session: nat)
    requires s.searchFromCarry == Some(S.Carry(base, far)) && !S.FloorWasReset(s, a)
    requires S.Spawned(session) in S.HandleTick(s, t, a).1
    ensures HandsOn(S.HandleTick(s, t, a), session, a, base, far)
  {
    if s.state.Cooldown? {
      SessionHandsOn(s, t, a, base, far, session);
    }
  }

  lemma SpawnHandsOn(p: R.Plant, i: R.Input, base: nat, far: nat)
    requires Carrying(p, base, far) && LeavesCarry(p, i) && S.Spawned(p.next) in R.Handle(p, i).1
    ensures HandsOn(R.Handle(p, i), p.next, i.answers, base, far)
  {
    var s, t, a := p.supervisor, p.timeouts, R.Answering(p, i.answers);
    match i.event
    case StartCalled => SessionHandsOn(s, t, a, base, far, p.next);
    case FrameArrived(frame, session) => S.FramesSpawnNothing(s, t, frame, session, a, p.next);
    case TimerTicked => TickHandsOn(s, t, a, base, far, p.next);
    case _ =>
  }

  lemma FailIsCarried(p: R.Plant, i: R.Input, failed: nat, far: nat, session: nat)
    requires p.supervisor.helper == Some(session) && S.HasHelper(p.supervisor.state)
    requires i.event == R.FrameArrived(AuthFail(failed, Some(far)), session)
    ensures Carrying(R.After(p, i), p.supervisor.sessionFloorBase, far)
  {
  }

  /**
   * In every run of a supervisor: the position its helper reported last reaches the next helper
   * it spawns - however many events, exits, cooldowns and failed spawns later - if that helper's
   * floor has the same rollover counter, and is withheld on any other.
   */
  lemma RespawnResumesTheClimb(t: S.Timeouts, inputs: seq<R.Input>, i: nat, n: nat,
                               failed: nat, far: nat, session: nat)
    requires i < n < |inputs|
    requires var before := Run(R.After, R.NewPlant(t), inputs[..i]).supervisor;
             before.helper == Some(session) && S.HasHelper(before.state)
    requires inputs[i].event == R.FrameArrived(AuthFail(failed, Some(far)), session)
    requires forall m :: i < m <= n ==> LeavesCarry(Run(R.After, R.NewPlant(t), inputs[..m]), inputs[m])
    requires var p := Run(R.After, R.NewPlant(t), inputs[..n]); S.Spawned(p.next) in R.Handle(p, inputs[n]).1
    ensures var p := Run(R.After, R.NewPlant(t), inputs[..n]);
            var base := Run(R.After, R.NewPlant(t), inputs[..i]).supervisor.sessionFloorBase;
            HandsOn(R.Handle(p, inputs[n]), p.next, inputs[n].answers, base, far)
  {
    var base := Run(R.After, R.NewPlant(t), inputs[..i]).supervisor.sessionFloorBase;
    FailIsCarried(Run(R.After, R.NewPlant(t), inputs[..i]), inputs[i], failed, far, session);
    RunStep(R.After, R.NewPlant(t), inputs, i);
    var inv := p => Carrying(p, base, far);
    forall p, l | inv(p) && LeavesCarry(p, l)
      ensures inv(R.After(p, l))
    {
      CarryStep(p, l, base, far);
    }
    Keeps(R.After, inv, LeavesCarry, R.NewPlant(t), inputs, i + 1, n);
    SpawnHandsOn(Run(R.After, R.NewPlant(t), inputs[..n]), inputs[n], base, far);
  }
}
