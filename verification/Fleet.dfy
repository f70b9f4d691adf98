/**
 * Any number of instances of the service sharing one port's row: each a supervisor, its
 * helper process, and its view of the lease. A helper's `stopped` and `auth lost` frames
 * are handled as they are written; every other frame may arrive at any time, with any
 * content, from any session.
 */
module Fleet {
  import opened Wrappers
  import opened HelperFrames
  import opened StreamRow
  import opened StreamMetadata
  import opened Runs
  import opened SupervisorSpec
  import opened SupervisorRuns
  import Lease
  import PortSpec

  /** `port` is the state of the current helper, as long as that runs. */
  datatype Instance = Instance(plant: Plant, port: PortSpec.Port)

  datatype World = World(lease: Lease.World, instances: map<InstanceId, Instance>)

  /** The requests an event may give rise to: when they were made, and what became of them. */
  datatype Requests = Requests(answers: Answers, stamp: int, delivery: Delivery, newPort: PortSpec.Port)

  datatype Act =
    | FlushEnds
    | PipelineFails
    | AuthenticationLost
    | SignalArrives
    | Works(port: PortSpec.Port)  // follows packets, hands out keys, ticks

  datatype Move =
    | Elapses(ms: nat)
    | Sweeps(threshold: int)
    | MovesFloor(w: Write)
    | Queued(id: InstanceId, event: Event, q: Requests)
    | HelperActs(id: InstanceId, act: Act, q: Requests)

  // ---------------------------------------------------------------- one instance

  /** The lock service's answers, from the row as it is. */
  function Asking(lease: Lease.World, id: InstanceId, q: Requests): Answers {
    q.answers.(
      acquire := Lease.AcquireAnswer(lease, id, q.stamp, q.delivery),
      refresh := Some(Lease.RefreshAnswer(lease, id, q.stamp, q.delivery)))
  }

  /** What a handler's effects do to the row, and to what the instance believes. */
  function LeaseAfter(lease: Lease.World, id: InstanceId, effects: seq<Effect>, dropped: bool, q: Requests): Lease.World {
    if AskedAcquire in effects then Lease.After(lease, Lease.Acquires(id, q.stamp, q.delivery))
    else if AskedRefresh in effects then Lease.After(lease, Lease.Refreshes(id, q.stamp, q.delivery))
    else if AskedRelease in effects then Lease.After(lease, Lease.Releases(id, q.delivery))
    else if dropped then Lease.After(lease, Lease.Yields(id))
    else lease
  }

  /** A helper just started is searching and has been told nothing. */
  predicate IsFreshPort(p: PortSpec.Port) {
    p.mode.SearchingMode? && !p.stopping && !p.shuttingDown
  }

  /** The helper once the supervisor's commands have been read, and its replies. */
  function PortAfter(x: Instance, effects: seq<Effect>, q: Requests): (PortSpec.Port, seq<Frame>) {
    if Spawned(x.plant.next) in effects then
      (if IsFreshPort(q.newPort) then q.newPort else PortSpec.Started(0, None, None, 512), [])
    else if x.plant.supervisor.helper.None? then (x.port, [])
    else
      var session := x.plant.supervisor.helper.value;
      if Wrote(session, StartProducing) in effects then PortSpec.CmdStart(x.port)
      else if Wrote(session, StopProducing) in effects then PortSpec.CmdStop(x.port)
      else (x.port, [])
  }

  /** One queued event of one instance, before the helper's replies are handled. */
  function Handled(lease: Lease.World, id: InstanceId, x: Instance, event: Event, q: Requests)
    : (Lease.World, Instance, seq<Frame>)
  {
    var i := Input(event, Asking(lease, id, q));
    var effects := Handle(x.plant, i).1;
    var plant := SupervisorRuns.After(x.plant, i);
    var (port, replies) := PortAfter(x, effects, q);
    (LeaseAfter(lease, id, effects, x.plant.supervisor.lockHeld && !plant.supervisor.lockHeld, q),
     Instance(plant, port),
     replies)
  }

  /** The frames a helper wrote, handled one after another as they are written. */
  function Delivered(lease: Lease.World, id: InstanceId, x: Instance, frames: seq<Frame>, q: Requests)
    : (Lease.World, Instance)
    decreases |frames|
  {
    if frames == [] || x.plant.supervisor.helper.None? then (lease, x)
    else
      var session := x.plant.supervisor.helper.value;
      var (lease', x', _) := Handled(lease, id, x, FrameArrived(frames[0], session), q);
      Delivered(lease', id, x', frames[1..], q)
  }

  /** A helper acting on its own: its next state and the frames it writes. */
  function Acted(p: PortSpec.Port, act: Act): (PortSpec.Port, seq<Frame>) {
    match act
    case FlushEnds => PortSpec.FinishStop(p)
    case PipelineFails =>
      if p.mode.ProducingMode? then (PortSpec.PipelineError(p).0, PortSpec.PipelineError(p).1) else (p, [])
    case AuthenticationLost => if p.shuttingDown then (p, []) else PortSpec.GiveUp(p)
    case SignalArrives => (p.(shuttingDown := true), [])
    case Works(port) =>
      if port.mode == p.mode && port.stopping == p.stopping && port.shuttingDown == p.shuttingDown then (port, [])
      else (p, [])
  }

  predicate HelperRuns(x: Instance) {
    x.plant.supervisor.helper.Some? && x.plant.supervisor.helper.value in x.plant.alive
  }

  /** Something of this instance's may be writing to the stream. */
  predicate IsProducing(x: Instance) {
    x.plant.alive != {} && x.port.mode.ProducingMode?
  }

  /** A report, by the current helper, that it is not producing. */
  predicate SaysNotProducing(x: Instance, event: Event) {
    && event.FrameArrived?
    && x.plant.supervisor.helper == Some(event.session)
    && (event.frame.Stopped? || event.frame.AuthLost?)
  }

  // ---------------------------------------------------------------- the fleet

  function Placed(world: World, id: InstanceId, lease: Lease.World, x: Instance): World {
    World(lease, world.instances[id := x])
  }

  function After(world: World, m: Move): World {
    match m
    case Elapses(ms) => world.(lease := Lease.After(world.lease, Lease.Elapses(ms)))
    case Sweeps(threshold) => world.(lease := Lease.After(world.lease, Lease.Sweeps(threshold)))
    case MovesFloor(w) => world.(lease := Lease.After(world.lease, Lease.MovesFloor(w)))
    case Queued(id, event, q) =>
      if id !in world.instances || SaysNotProducing(world.instances[id], event) then world
      else
        var (lease, x, replies) := Handled(world.lease, id, world.instances[id], event, q);
        var (lease', x') := if HelperRuns(x) then Delivered(lease, id, x, replies, q) else (lease, x);
        Placed(world, id, lease', x')
    case HelperActs(id, act, q) =>
      if id !in world.instances || !HelperRuns(world.instances[id]) then world
      else
        var x := world.instances[id];
        var (port, frames) := Acted(x.port, act);
        var (lease', x') := Delivered(world.lease, id, x.(port := port), frames, q);
        Placed(world, id, lease', x')
  }

  /** Every instance at its start, nobody believing anything. */
  predicate Opening(world: World) {
    && Lease.Opening(world.lease)
    && forall id :: id in world.instances ==>
         world.instances[id].plant == NewPlant(world.instances[id].plant.timeouts)
  }

  /** One instance: its supervisor is sound, it produces only under the lock, and believes what it holds. */
  predicate Safe(lease: Lease.World, id: InstanceId, x: Instance) {
    && Sound(x.plant)
    && (IsProducing(x) ==> x.plant.supervisor.lockHeld)
    && Lease.HolderOf(lease, id).believes == x.plant.supervisor.lockHeld
  }

  ghost predicate AllSafe(world: World) {
    && Lease.AllGrounded(world.lease)
    && (forall id :: id in world.instances ==> Safe(world.lease, id, world.instances[id]))
    && (forall id :: Lease.HolderOf(world.lease, id).believes ==> id in world.instances)
  }

  /** `to` is grounded if `from` is, and only `id` can have changed its mind. */
  ghost predicate LeaseStep(from: Lease.World, to: Lease.World, id: InstanceId) {
    && (Lease.AllGrounded(from) ==> Lease.AllGrounded(to))
    && forall other :: other != id ==> Lease.HolderOf(to, other).believes == Lease.HolderOf(from, other).believes
  }

  lemma AnyLeaseMove(lease: Lease.World, m: Lease.Move, id: InstanceId)
    requires m.Acquires? ==> m.id == id
    requires m.Refreshes? ==> m.id == id
    requires m.Releases? ==> m.id == id
    requires m.Yields? ==> m.id == id
    ensures LeaseStep(lease, Lease.After(lease, m), id)
  {
    if Lease.AllGrounded(lease) {
      forall other ensures Lease.Grounded(Lease.After(lease, m), other) {
        assert Lease.Grounded(lease, other);
        Lease.GroundedStep(lease, m, other);
      }
    }
  }

  /** The frames that never make a supervisor write a command or spawn a helper. */
  predicate IsReport(f: Frame) {
    f.Stopped? || f.AuthLost? || f.Notice? || f.ProducingStarted?
  }

  lemma ReportsAreQuiet(p: Plant, i: Input)
    requires i.event.FrameArrived? && IsReport(i.event.frame)
    ensures forall s, c :: Wrote(s, c) !in Handle(p, i).1
    ensures Spawned(p.next) !in Handle(p, i).1
  {
  }

  /** Frames that the helper may have written now: reports, and none of a stop it has not made. */
  predicate Truthful(frames: seq<Frame>, port: PortSpec.Port) {
    forall i :: 0 <= i < |frames| ==>
      && IsReport(frames[i])
      && (frames[i].Stopped? || frames[i].AuthLost? ==> port.mode.SearchingMode?)
  }

  lemma RepliesAreTruthful(p: PortSpec.Port)
    ensures Truthful(PortSpec.CmdStart(p).1, PortSpec.CmdStart(p).0)
    ensures Truthful(PortSpec.CmdStop(p).1, PortSpec.CmdStop(p).0)
    ensures PortSpec.CmdStop(p).0.mode == p.mode
  {
  }

  lemma ActsAreTruthful(p: PortSpec.Port, act: Act)
    ensures Truthful(Acted(p, act).1, Acted(p, act).0)
    ensures Acted(p, act).0.mode.ProducingMode? ==> p.mode.ProducingMode?
  {
  }

  /** What an instance believes after an event is what its supervisor holds. */
  lemma BeliefFollowsLock(lease: Lease.World, id: InstanceId, s: Supervisor, t: Timeouts, next: SessionId, gone: bool,
                          o: Outcome, q: Requests)
    requires Lease.HolderOf(lease, id).believes == s.lockHeld
    requires Lawful(s, t, next, gone, Asking(lease, id, q).acquire.Acquired?, o)
    ensures var after := LeaseAfter(lease, id, o.1, s.lockHeld && !o.0.lockHeld, q);
            Lease.HolderOf(after, id).believes == o.0.lockHeld && LeaseStep(lease, after, id)
  {
    AnyLeaseMove(lease, Lease.Acquires(id, q.stamp, q.delivery), id);
    AnyLeaseMove(lease, Lease.Refreshes(id, q.stamp, q.delivery), id);
    AnyLeaseMove(lease, Lease.Releases(id, q.delivery), id);
    AnyLeaseMove(lease, Lease.Yields(id), id);
  }

  /** After an event, whatever produces does so under the lock. */
  lemma StillProducingUnderLock(p: Plant, port: PortSpec.Port, i: Input, q: Requests)
    requires Sound(p) && (IsProducing(Instance(p, port)) ==> p.supervisor.lockHeld)
    requires SaysNotProducing(Instance(p, port), i.event) ==> port.mode.SearchingMode?
    ensures var after := SupervisorRuns.After(p, i);
            IsProducing(Instance(after, PortAfter(Instance(p, port), Handle(p, i).1, q).0)) ==> after.supervisor.lockHeld
  {
    HandlingIsLawful(p, i);
    RepliesAreTruthful(port);
    if p.supervisor.lockHeld && !SupervisorRuns.After(p, i).supervisor.lockHeld {
      ReleasedOnlyWithoutAProducer(p, i);
    }
  }

  lemma HandledIsSafe(lease: Lease.World, id: InstanceId, x: Instance, event: Event, q: Requests)
    requires Safe(lease, id, x)
    requires SaysNotProducing(x, event) ==> x.port.mode.SearchingMode?
    ensures var (lease', x', replies) := Handled(lease, id, x, event, q);
            && Safe(lease', id, x') && LeaseStep(lease, lease', id)
            && Truthful(replies, x'.port)
            && (event.FrameArrived? && IsReport(event.frame) ==> x'.port == x.port)
  {
    var i := Input(event, Asking(lease, id, q));
    HandlingIsLawful(x.plant, i);
    SoundStep(x.plant, i);
    StillProducingUnderLock(x.plant, x.port, i, q);
    RepliesAreTruthful(x.port);
    BeliefFollowsLock(lease, id, x.plant.supervisor, x.plant.timeouts, x.plant.next,
                      HelperGone(x.plant, i), Handle(x.plant, i), q);
    if event.FrameArrived? && IsReport(event.frame) {
      ReportsAreQuiet(x.plant, i);
    }
  }

  lemma {:induction false} DeliveredIsSafe(lease: Lease.World, id: InstanceId, x: Instance, frames: seq<Frame>, q: Requests)
    requires Safe(lease, id, x) && Truthful(frames, x.port)
    ensures var (lease', x') := Delivered(lease, id, x, frames, q);
            Safe(lease', id, x') && LeaseStep(lease, lease', id)
    decreases |frames|
  {
    if frames == [] || x.plant.supervisor.helper.None? {
    } else {
      var session := x.plant.supervisor.helper.value;
      HandledIsSafe(lease, id, x, FrameArrived(frames[0], session), q);
      var (lease', x', _) := Handled(lease, id, x, FrameArrived(frames[0], session), q);
      DeliveredIsSafe(lease', id, x', frames[1..], q);
    }
  }

  /** Putting one safe instance back leaves every other as it was. */
  lemma PlacedIsSafe(world: World, id: InstanceId, lease: Lease.World, x: Instance)
    requires AllSafe(world) && id in world.instances
    requires Safe(lease, id, x) && LeaseStep(world.lease, lease, id)
    ensures AllSafe(Placed(world, id, lease, x))
  {
  }

  lemma SafeStep(world: World, m: Move)
    requires AllSafe(world)
    ensures AllSafe(After(world, m))
  {
    match m
    case Elapses(ms) => EnvironmentStep(world, Lease.Elapses(ms));
    case Sweeps(threshold) => EnvironmentStep(world, Lease.Sweeps(threshold));
    case MovesFloor(w) => EnvironmentStep(world, Lease.MovesFloor(w));
    case Queued(id, event, q) =>
      if id in world.instances && !SaysNotProducing(world.instances[id], event) {
        var x := world.instances[id];
        HandledIsSafe(world.lease, id, x, event, q);
        var (lease, x', replies) := Handled(world.lease, id, x, event, q);
        DeliveredIsSafe(lease, id, x', replies, q);
        var (lease'', x'') := if HelperRuns(x') then Delivered(lease, id, x', replies, q) else (lease, x');
        PlacedIsSafe(world, id, lease'', x'');
      }
    case HelperActs(id, act, q) =>
      if id in world.instances && HelperRuns(world.instances[id]) {
        var x := world.instances[id];
        var (port, frames) := Acted(x.port, act);
        ActsAreTruthful(x.port, act);
        DeliveredIsSafe(world.lease, id, x.(port := port), frames, q);
        var (lease', x') := Delivered(world.lease, id, x.(port := port), frames, q);
        PlacedIsSafe(world, id, lease', x');
      }
  }

  lemma EnvironmentStep(world: World, m: Lease.Move)
    requires AllSafe(world) && (m.Elapses? || m.Sweeps? || m.MovesFloor?)
    ensures AllSafe(world.(lease := Lease.After(world.lease, m)))
  {
    AnyLeaseMove(world.lease, m, "");
  }

  lemma AlwaysSafe(world: World, ms: seq<Move>)
    requires Opening(world)
    ensures AllSafe(Run(After, world, ms))
  {
    forall t, m | AllSafe(t)
      ensures AllSafe(After(t, m))
    {
      SafeStep(t, m);
    }
    Always(After, AllSafe, world, ms);
  }

  /**
   * In every run of every fleet, an instance whose helper produces holds the lock; if its
   * lease is fresh it is the row's owner; and no two instances with fresh leases produce
   * at once.
   */
  lemma AtMostOneProducer(world: World, ms: seq<Move>, i: InstanceId, j: InstanceId)
    requires Opening(world)
    requires var last := Run(After, world, ms);
             && i in last.instances && IsProducing(last.instances[i]) && Lease.IsFresh(last.lease, i)
             && j in last.instances && IsProducing(last.instances[j])
    ensures var last := Run(After, world, ms);
            && last.instances[i].plant.supervisor.lockHeld
            && last.lease.row.owner == Some(i)
            && (Lease.IsFresh(last.lease, j) ==> i == j)
  {
    AlwaysSafe(world, ms);
    var last := Run(After, world, ms);
    assert Lease.Grounded(last.lease, i) && Lease.Grounded(last.lease, j);
  }

  /**
   * Why delivery must be synchronous: an `auth lost` written before `start` is read, and
   * handled after it was sent, makes the supervisor give the lock up for a helper that is
   * by then producing.
   */
  lemma CrossedAuthLossReleasesTheLock(p: Plant, port: PortSpec.Port, session: SessionId, a: Answers)
    requires Sound(p) && p.supervisor.state.Acquiring? && p.supervisor.helper == Some(session) && session in p.alive
    requires port.mode.SearchingMode? && !port.stopping && !port.shuttingDown
    requires a.acquire.Acquired?
    ensures var granted := SupervisorRuns.After(p, Input(FrameArrived(AuthOk(true, 0, None, None), session), a));
            var crossed := SupervisorRuns.After(granted, Input(FrameArrived(AuthLost, session), a));
            && granted.supervisor.lockHeld
            && IsProducing(Instance(crossed, PortSpec.CmdStart(port).0))
            && !crossed.supervisor.lockHeld
  {
    var granted := SupervisorRuns.After(p, Input(FrameArrived(AuthOk(true, 0, None, None), session), a));
    assert session in granted.alive;
    assert session in SupervisorRuns.After(granted, Input(FrameArrived(AuthLost, session), a)).alive;
  }

  /**
   * And exactly when a report that nothing is produced may be handled: the instance stays
   * safe if and only if its helper is not producing at that moment.
   */
  lemma ReportSafeIffTrue(lease: Lease.World, id: InstanceId, x: Instance, event: Event, q: Requests)
    requires Safe(lease, id, x) && SaysNotProducing(x, event)
    ensures Safe(Handled(lease, id, x, event, q).0, id, Handled(lease, id, x, event, q).1) <==> !IsProducing(x)
  {
    var i := Input(event, Asking(lease, id, q));
    if IsProducing(x) {
      ReportDropsLock(x.plant, i, event.session);
      ReportsAreQuiet(x.plant, i);
    } else {
      HandlingIsLawful(x.plant, i);
      SoundStep(x.plant, i);
      ReportsAreQuiet(x.plant, i);
      BeliefFollowsLock(lease, id, x.plant.supervisor, x.plant.timeouts, x.plant.next,
                        HelperGone(x.plant, i), Handle(x.plant, i), q);
    }
  }

  /** Such a report ends no process, and while the lock is held it lets go of it. */
  lemma ReportDropsLock(p: Plant, i: Input, session: SessionId)
    requires Sound(p) && p.supervisor.helper == Some(session) && p.supervisor.lockHeld
    requires i.event.FrameArrived? && i.event.session == session
    requires i.event.frame.Stopped? || i.event.frame.AuthLost?
    ensures !SupervisorRuns.After(p, i).supervisor.lockHeld && SupervisorRuns.After(p, i).alive == p.alive
  {
  }

  /**
   * In terms of what was sent: let the helper be searching when it writes such a report, and let
   * it read a `start` that is on its way before the report is handled, or none. The instance is
   * safe afterwards if and only if no `start` was on its way.
   */
  lemma ReportSafeIffNoStartInFlight(lease: Lease.World, id: InstanceId, x: Instance, event: Event, q: Requests,
                                     startInFlight: bool)
    requires Safe(lease, id, x) && SaysNotProducing(x, event) && HelperRuns(x)
    requires x.port.mode.SearchingMode? && !x.port.stopping && !x.port.shuttingDown
    requires startInFlight ==> x.plant.supervisor.state.Producing?
    ensures var port := if startInFlight then PortSpec.CmdStart(x.port).0 else x.port;
            var (lease', x', _) := Handled(lease, id, x.(port := port), event, q);
            Safe(lease', id, x') <==> !startInFlight
  {
    var port := if startInFlight then PortSpec.CmdStart(x.port).0 else x.port;
    ReportSafeIffTrue(lease, id, x.(port := port), event, q);
  }
}
