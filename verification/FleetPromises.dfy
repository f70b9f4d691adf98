/**
 * The converse of safety: in a fleet, a lock that is held is put to use. Whoever holds it has a
 * helper that produces, or one that is on its way out.
 */
module FleetPromises {
  import opened Wrappers
  import opened HelperFrames
  import opened StreamRow
  import opened Runs
  import opened SupervisorSpec
  import opened SupervisorRuns
  import opened SupervisorDuties
  import opened Fleet
  import Lease
  import PortSpec

  /** The lock's helper, if it runs, produces; unless it is stopping or has been told to shut down. */
  predicate IsUsed(x: Instance) {
    x.plant.supervisor.lockHeld && HelperRuns(x) ==>
      IsProducing(x) || x.port.stopping || x.port.shuttingDown
  }

  /** What an event does to the helper: start or stop it, replace it, or nothing. */
  lemma EventOnPort(lease: Lease.World, id: InstanceId, x: Instance, event: Event, q: Requests)
    requires Sound(x.plant) && HelperRuns(x)
    ensures var i := Input(event, Asking(lease, id, q));
            var (_, x', replies) := Handled(lease, id, x, event, q);
            && x'.plant == SupervisorRuns.After(x.plant, i)
            && (IsGranted(x.plant, i) ==>
                  x'.port == PortSpec.CmdStart(x.port).0 && replies == PortSpec.CmdStart(x.port).1)
            && (LosesLease(x.plant, i) ==>
                  x'.port == PortSpec.CmdStop(x.port).0 && replies == PortSpec.CmdStop(x.port).1)
            && (!IsGranted(x.plant, i) && !Spawning(x.plant, i) && !LosesLease(x.plant, i) && !Flushes(x.plant, i) ==>
                  x'.port == x.port && replies == [])
  {
    var i := Input(event, Asking(lease, id, q));
    AskedExactly(x.plant, i, x.plant.supervisor.helper.value, 0);
    SpawnedExactly(x.plant, i, Init(None, None));
  }

  /** The event that takes the lock leaves a helper that produces, if it is free to. */
  lemma GrantMakesProducer(lease: Lease.World, id: InstanceId, x: Instance, event: Event, q: Requests)
    requires Sound(x.plant) && HelperRuns(x) && !x.plant.supervisor.lockHeld
    requires x.port.mode.SearchingMode? && !x.port.stopping && !x.port.shuttingDown
    ensures var (_, x', _) := Handled(lease, id, x, event, q);
            x'.plant.supervisor.lockHeld ==> HelperRuns(x') && IsProducing(x')
  {
    var i := Input(event, Asking(lease, id, q));
    EventOnPort(lease, id, x, event, q);
    LockAfter(x.plant, i);
    if IsGranted(x.plant, i) {
      GrantKeepsHelper(x.plant, i);
    }
  }

  lemma GrantKeepsHelper(p: Plant, i: Input)
    requires Sound(p) && (IsGranted(p, i) || LosesLease(p, i) || (i.event.FrameArrived? && IsReport(i.event.frame)))
    ensures var after := SupervisorRuns.After(p, i);
            after.supervisor.helper == p.supervisor.helper && after.alive == p.alive
  {
    EventRemembers(p, i);
    SpawnedExactly(p, i, Init(None, None));
    forall session: SessionId | session in p.alive
      ensures EndedHelper(session) !in Handle(p, i).1
    {
      EndedExactly(p, i, session);
    }
  }

  /** A report handled: the helper is as it was, and the lock is not held but if it was before. */
  lemma ReportKeeps(lease: Lease.World, id: InstanceId, x: Instance, f: Frame, q: Requests)
    requires Sound(x.plant) && x.plant.supervisor.helper.Some? && IsReport(f)
    ensures var session := x.plant.supervisor.helper.value;
            var (_, x', _) := Handled(lease, id, x, FrameArrived(f, session), q);
            && Sound(x'.plant) && x'.port == x.port && x'.plant.alive == x.plant.alive
            && x'.plant.supervisor.helper == x.plant.supervisor.helper
            && (x'.plant.supervisor.lockHeld ==>
                  x.plant.supervisor.lockHeld && !f.Stopped? && !f.AuthLost?)
  {
    var i := Input(FrameArrived(f, x.plant.supervisor.helper.value), Asking(lease, id, q));
    SoundStep(x.plant, i);
    ReportsAreQuiet(x.plant, i);
    GrantKeepsHelper(x.plant, i);
    LockAfter(x.plant, i);
  }

  predicate AllReports(frames: seq<Frame>) {
    forall k :: 0 <= k < |frames| ==> IsReport(frames[k])
  }

  /** One of these says that nothing is produced. */
  predicate EndsProduction(frames: seq<Frame>) {
    exists k :: 0 <= k < |frames| && (frames[k].Stopped? || frames[k].AuthLost?)
  }

  /** Reports handled one after another: the lock is let go if one of them says that nothing is produced. */
  lemma {:induction false} ReportsKeep(lease: Lease.World, id: InstanceId, x: Instance, frames: seq<Frame>, q: Requests)
    requires Sound(x.plant) && x.plant.supervisor.helper.Some? && AllReports(frames)
    ensures var (_, x') := Delivered(lease, id, x, frames, q);
            && Sound(x'.plant) && x'.port == x.port && x'.plant.alive == x.plant.alive
            && x'.plant.supervisor.helper == x.plant.supervisor.helper
            && (x'.plant.supervisor.lockHeld ==> x.plant.supervisor.lockHeld && !EndsProduction(frames))
    decreases |frames|
  {
    if frames == [] {
    } else {
      var session := x.plant.supervisor.helper.value;
      ReportKeeps(lease, id, x, frames[0], q);
      var (lease', x', _) := Handled(lease, id, x, FrameArrived(frames[0], session), q);
      ReportsKeep(lease', id, x', frames[1..], q);
      assert forall k :: 1 <= k < |frames| ==> frames[k] == frames[1..][k - 1];
    }
  }

  /** What a helper writes of itself, or in answer to a command, leaves it used once it has been handled. */
  lemma DeliveredIsUsed(lease: Lease.World, id: InstanceId, x: Instance, frames: seq<Frame>, q: Requests)
    requires Sound(x.plant) && x.plant.supervisor.helper.Some? && AllReports(frames)
    requires IsUsed(x) || EndsProduction(frames)
    ensures IsUsed(Delivered(lease, id, x, frames, q).1)
  {
    ReportsKeep(lease, id, x, frames, q);
  }

  lemma ActsEndOrKeep(p: PortSpec.Port, act: Act)
    ensures AllReports(Acted(p, act).1)
    ensures EndsProduction(Acted(p, act).1)
            || (&& (p.mode.ProducingMode? ==> Acted(p, act).0.mode.ProducingMode?)
                && (p.stopping ==> Acted(p, act).0.stopping) && (p.shuttingDown ==> Acted(p, act).0.shuttingDown))
  {
    var frames := Acted(p, act).1;
    match act
    case FlushEnds => if p.stopping { assert frames[0].Stopped?; }
    case PipelineFails => if p.mode.ProducingMode? { assert frames[1].Stopped?; }
    case AuthenticationLost => if !p.shuttingDown { assert frames[|frames| - 1].AuthLost?; }
    case SignalArrives =>
    case Works(_) =>
  }

  lemma CommandsEndOrUse(p: PortSpec.Port)
    ensures AllReports(PortSpec.CmdStart(p).1) && AllReports(PortSpec.CmdStop(p).1)
    ensures var q := PortSpec.CmdStart(p).0; q.mode.ProducingMode? || q.stopping || q.shuttingDown
    ensures EndsProduction(PortSpec.CmdStop(p).1)
            || (PortSpec.CmdStop(p).0.stopping || PortSpec.CmdStop(p).0.shuttingDown)
  {
    if !p.shuttingDown && !p.stopping && p.mode.SearchingMode? {
      assert PortSpec.CmdStop(p).1[0].Stopped?;
    }
  }

  /** One queued event leaves the lock used, its replies included. */
  lemma QueuedIsUsed(lease: Lease.World, id: InstanceId, x: Instance, event: Event, q: Requests)
    requires Sound(x.plant) && IsUsed(x)
    ensures var (lease', x', replies) := Handled(lease, id, x, event, q);
            HelperRuns(x') ==> AllReports(replies) && (IsUsed(x') || EndsProduction(replies))
  {
    var i := Input(event, Asking(lease, id, q));
    SoundStep(x.plant, i);
    LockAfter(x.plant, i);
    EventFollows(x.plant, i);
    EventRemembers(x.plant, i);
    SpawnedExactly(x.plant, i, Init(None, None));
    CommandsEndOrUse(x.port);
    if HelperRuns(x) {
      EventOnPort(lease, id, x, event, q);
    }
  }

  ghost predicate AllUsed(world: World) {
    AllSafe(world) && forall id :: id in world.instances ==> IsUsed(world.instances[id])
  }

  lemma UsedStep(world: World, m: Move)
    requires AllUsed(world)
    ensures AllUsed(Fleet.After(world, m))
  {
    SafeStep(world, m);
    match m
    case Elapses(_) =>
    case Sweeps(_) =>
    case MovesFloor(_) =>
    case Queued(id, event, q) =>
      if id in world.instances && !SaysNotProducing(world.instances[id], event) {
        var x := world.instances[id];
        QueuedIsUsed(world.lease, id, x, event, q);
        HandledIsSafe(world.lease, id, x, event, q);
        var (lease, x', replies) := Handled(world.lease, id, x, event, q);
        if HelperRuns(x') {
          DeliveredIsUsed(lease, id, x', replies, q);
        }
      }
    case HelperActs(id, act, q) =>
      if id in world.instances && HelperRuns(world.instances[id]) {
        var x := world.instances[id];
        ActsEndOrKeep(x.port, act);
        var (port, frames) := Acted(x.port, act);
        DeliveredIsUsed(world.lease, id, x.(port := port), frames, q);
      }
  }

  lemma OpeningIsUsed(world: World)
    requires Fleet.Opening(world)
    ensures AllUsed(world)
  {
  }

  lemma AlwaysUsed(world: World, ms: seq<Move>)
    requires AllUsed(world)
    ensures AllUsed(Run(Fleet.After, world, ms))
  {
    forall t, m | AllUsed(t)
      ensures AllUsed(Fleet.After(t, m))
    {
      UsedStep(t, m);
    }
    Always(Fleet.After, AllUsed, world, ms);
  }

  /**
   * In every run of every fleet: an instance that holds the lock, and whose helper runs, produces -
   * unless that helper is stopping or shutting down.
   */
  lemma HeldLockIsUsed(world: World, ms: seq<Move>, id: InstanceId)
    requires Fleet.Opening(world)
    requires var last := Run(Fleet.After, world, ms);
             id in last.instances && last.instances[id].plant.supervisor.lockHeld && HelperRuns(last.instances[id])
    ensures var x := Run(Fleet.After, world, ms).instances[id];
            IsProducing(x) || x.port.stopping || x.port.shuttingDown
  {
    OpeningIsUsed(world);
    AlwaysUsed(world, ms);
  }

  /** A producer whose lease turns out lost is stopping at once, and when its flush ends the lock has gone. */
  lemma LostLeaseEndsProduction(lease: Lease.World, id: InstanceId, x: Instance, event: Event, q: Requests,
                                later: Lease.World, q': Requests)
    requires Sound(x.plant) && HelperRuns(x) && LosesLease(x.plant, Input(event, Asking(lease, id, q)))
    requires x.port.mode.ProducingMode? && !x.port.stopping && !x.port.shuttingDown
    ensures var (_, x', replies) := Handled(lease, id, x, event, q);
            var (port, frames) := Acted(x'.port, FlushEnds);
            var x'' := Delivered(later, id, x'.(port := port), frames, q').1;
            && x'.port.stopping && replies == []
            && !x''.plant.supervisor.lockHeld && x''.port.mode.SearchingMode? && !x''.port.stopping
  {
    var i := Input(event, Asking(lease, id, q));
    EventOnPort(lease, id, x, event, q);
    SoundStep(x.plant, i);
    GrantKeepsHelper(x.plant, i);
    var (_, x', _) := Handled(lease, id, x, event, q);
    var (port, frames) := Acted(x'.port, FlushEnds);
    assert frames[0].Stopped?;
    ActsEndOrKeep(x'.port, FlushEnds);
    ReportsKeep(later, id, x'.(port := port), frames, q');
  }
}
