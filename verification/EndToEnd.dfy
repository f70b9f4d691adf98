/**
 * From a packet to the next helper's floor: what one helper accepts goes through its report, its
 * supervisor, the row, and the supervisor that starts another.
 */
module EndToEnd {
  import opened Wrappers
  import opened PacketIndex
  import opened HelperFrames
  import opened SupervisorSpec
  import opened SupervisorRuns
  import opened SupervisorPromises
  import FloorHistory
  import HelperRuns
  import PortSpec
  import Restarts
  import Runs
  import SessionFence
  import StreamRow
  import SupervisedSearch
  import SupervisorDuties

  /** The row is written as this effect asks, for this key, by the session that move `r` speaks for. */
  predicate Makes(world: SessionFence.World, ms: seq<SessionFence.Move>, r: nat, key: StreamRow.Key, e: Effect) {
    && r < |ms| && ms[r].Reports? && ms[r].key == key && e.AskedRaise? && ms[r].index == e.index
    && var sessions := Runs.Run(SessionFence.After, world, ms[..r]).sessions;
       ms[r].id in sessions && sessions[ms[r].id].Running? && sessions[ms[r].id].epoch == e.epoch
  }

  /** Whatever event `m` asks to be written, move `r` writes. */
  predicate Carries(t: Timeouts, inputs: seq<Input>, m: nat,
                    world: SessionFence.World, ms: seq<SessionFence.Move>, r: nat, key: StreamRow.Key)
    requires m < |inputs|
  {
    var raises := SupervisorDuties.Raises(EffectsAt(t, inputs, m));
    forall k :: 0 <= k < |raises| ==> Makes(world, ms, r, key, raises[k])
  }

  /** A report that reaches the supervisor reaches the row, under the epoch its helper was spawned with. */
  lemma ReportReachesTheRow(
      t: Timeouts, inputs: seq<Input>, n: nat, m: nat, session: SessionId, epoch: Option<int>, x: nat,
      world: SessionFence.World, ms: seq<SessionFence.Move>, r: nat, key: StreamRow.Key)
    requires SpawnedUnder(t, inputs, n, session, epoch) && n < m < |inputs|
    requires inputs[m].event == FrameArrived(IndexReport(x), session)
    requires !PlantAt(t, inputs, m).supervisor.state.Terminated? && Carries(t, inputs, m, world, ms, r, key)
    ensures x <= INDEX_MAX && SessionFence.ReportsAt(world, ms, r, x, key, epoch)
  {
    ReportIsRaised(t, inputs, n, m, session, epoch);
    assert Makes(world, ms, r, key, SupervisorDuties.Raises(EffectsAt(t, inputs, m))[0]);
  }

  /** The helper that an event spawns, as it reads its init frame. */
  function HelperSpawned(key: StreamRow.Key, floor: Option<nat>, from: Option<nat>, every: int): HelperRuns.Helper {
    HelperRuns.Rebuilt(PortSpec.Started(key.ssrc, floor, SupervisedSearch.Position(from), every))
  }

  /** A helper is started on the floor its supervisor read. */
  lemma StartedOnFloorRead(t: Timeouts, inputs: seq<Input>, n: nat, floor: Option<nat>, from: Option<nat>)
    requires n < |inputs| && Wrote(PlantAt(t, inputs, n).next, Init(floor, from)) in EffectsAt(t, inputs, n)
    ensures inputs[n].answers.startFloor == Some(floor)
  {
    AlwaysSound(t, inputs[..n]);
    SupervisorDuties.SpawnedExactly(PlantAt(t, inputs, n), inputs[n], Init(floor, from));
  }

  /**
   * Let a helper accept a packet and later report; let the report reach its supervisor, and what the
   * supervisor asks for reach the row. No helper that any supervisor spawns later, having read the
   * floor at move `k`, accepts a packet computed at that index again, nor below it - as long as key
   * generation and epoch stand - whatever else is written in between, and by whomever.
   */
  lemma NeverAcceptedAgain(
      first: HelperRuns.Helper, steps: seq<HelperRuns.Step>, i: nat, reportAt: nat, force: bool, clock: int, x: nat,
      t: Timeouts, inputs: seq<Input>, n: nat, m: nat, session: SessionId, epoch: Option<int>,
      world: SessionFence.World, ms: seq<SessionFence.Move>, r: nat, k: nat, key: StreamRow.Key,
      t': Timeouts, inputs': seq<Input>, n': nat, floor: Option<nat>, from: Option<nat>,
      every: int, later: seq<HelperRuns.Step>, j: nat)
    requires i < reportAt <= |steps| && HelperRuns.EventAt(first, steps, i).AcceptedUnder?
    requires IndexReport(x) in PortSpec.ReportIndex(HelperRuns.Before(first, steps, reportAt).port, force, clock).1
    requires SpawnedUnder(t, inputs, n, session, epoch) && n < m < |inputs|
    requires inputs[m].event == FrameArrived(IndexReport(x), session)
    requires !PlantAt(t, inputs, m).supervisor.state.Terminated? && Carries(t, inputs, m, world, ms, r, key)
    requires SessionFence.Opening(world) && r < k <= |ms|
    requires n' < |inputs'|
             && Wrote(PlantAt(t', inputs', n').next, Init(floor, from)) in EffectsAt(t', inputs', n')
    requires var last := Runs.Run(SessionFence.After, world, ms[..k]).row;
             && FloorHistory.IsFor(last, key) && last.epoch == epoch
             && inputs'[n'].answers.startFloor == Some(StreamRow.ReadFloor(last, key.ssrc, key.fingerprint))
             && j < |later|
             && HelperRuns.EventAt(HelperSpawned(key, floor, from, every), later, j).AcceptedUnder?
    ensures HelperRuns.EventAt(first, steps, i).index
          < HelperRuns.EventAt(HelperSpawned(key, floor, from, every), later, j).index
  {
    ReportReachesTheRow(t, inputs, n, m, session, epoch, x, world, ms, r, key);
    StartedOnFloorRead(t', inputs', n', floor, from);
    Restarts.AcceptedNeverAgain(first, steps, i, reportAt, world, ms, r, k, x, key, epoch,
                                SupervisedSearch.Position(from), every, later, j);
  }
}
