/** The replay floor from end to end: one helper's acceptances, its report, a later helper. */
module Restarts {
  import opened Wrappers
  import opened PacketIndex
  import opened StreamRow
  import FloorHistory
  import HelperRuns
  import HelperSessions
  import opened HelperFrames
  import SessionFence
  import SessionOverlap
  import PortSpec
  import Runs

  /** A helper started for a key from what the row says. */
  function StartedFrom(row: Row, key: Key, searchFrom: Option<int>, floorEvery: int): HelperRuns.Helper {
    HelperRuns.Rebuilt(
      PortSpec.Started(key.ssrc, ReadFloor(row, key.ssrc, key.fingerprint), searchFrom, floorEvery))
  }

  /** Nothing a helper accepts, in any run, is at or below the floor it was started with. */
  lemma NothingBelowStartingFloor(row: Row, key: Key, from: Option<int>, every: int,
                                  steps: seq<HelperRuns.Step>, j: nat)
    requires j < |steps|
    requires HelperRuns.EventAt(StartedFrom(row, key, from, every), steps, j).AcceptedUnder?
    requires var f := ReadFloor(row, key.ssrc, key.fingerprint); f.Some? && f.value <= INDEX_MAX
    ensures ReadFloor(row, key.ssrc, key.fingerprint).value
          < HelperRuns.EventAt(StartedFrom(row, key, from, every), steps, j).index
  {
    var h := StartedFrom(row, key, from, every);
    var x := ReadFloor(row, key.ssrc, key.fingerprint).value;
    assert HelperRuns.Before(h, steps, 0) == h;
    HelperSessions.FloorStays(h, steps, 0, j, x);
    HelperSessions.FloorStep(HelperRuns.Before(h, steps, j), steps[j], x);
  }

  /**
   * Let a helper accept a packet at computed index t and later report its highest index, and let
   * that report be answered on a row whose epoch is no older than the report's. No helper started
   * afterwards for the same key, while the row is at that key's generation and at the report's
   * epoch, accepts t again, nor anything below it - whatever is written to the row in between.
   */
  lemma ReportedNeverAgain(
      first: HelperRuns.Helper, steps: seq<HelperRuns.Step>, i: nat, reportAt: nat,
      row: Row, reported: PacketIndex48, key: Key, epoch: Option<int>, ws: seq<Write>,
      from: Option<int>, every: int, later: seq<HelperRuns.Step>, j: nat)
    requires i < reportAt <= |steps| && HelperRuns.EventAt(first, steps, i).AcceptedUnder?
    requires HelperRuns.Before(first, steps, reportAt).port.tally.highestIndex == Some(reported)
    requires FloorHistory.WellFormed(row) && FloorHistory.AtMost(epoch, row.epoch)
    requires var last := Runs.Run(Written, Raise(row, reported, key, epoch).0, ws);
             && FloorHistory.IsFor(last, key) && last.epoch == epoch
             && j < |later|
             && HelperRuns.EventAt(StartedFrom(last, key, from, every), later, j).AcceptedUnder?
    ensures var last := Runs.Run(Written, Raise(row, reported, key, epoch).0, ws);
            HelperRuns.EventAt(first, steps, i).index
            < HelperRuns.EventAt(StartedFrom(last, key, from, every), later, j).index
  {
    var t := HelperRuns.EventAt(first, steps, i).index;
    HelperSessions.FloorStep(HelperRuns.Before(first, steps, i), steps[i], t);
    Runs.RunStep(HelperRuns.After, first, steps, i);
    HelperSessions.MemoryStays(first, steps, i + 1, reportAt, t);
    FloorHistory.CompletedReportHolds(row, reported, key, epoch, ws);
    NothingBelowStartingFloor(Runs.Run(Written, Raise(row, reported, key, epoch).0, ws), key, from, every, later, j);
  }

  /**
   * The same for sessions that share the row with any others, resets among them: move `r` is the
   * report, by a running session, and the later helper is given the floor it reads at move `k`.
   */
  lemma AcceptedNeverAgain(
      first: HelperRuns.Helper, steps: seq<HelperRuns.Step>, i: nat, reportAt: nat,
      world: SessionFence.World, ms: seq<SessionFence.Move>, r: nat, k: nat,
      reported: PacketIndex48, key: Key, epoch: Option<int>,
      from: Option<int>, every: int, later: seq<HelperRuns.Step>, j: nat)
    requires i < reportAt <= |steps| && HelperRuns.EventAt(first, steps, i).AcceptedUnder?
    requires HelperRuns.Before(first, steps, reportAt).port.tally.highestIndex == Some(reported)
    requires SessionFence.Opening(world) && r < k <= |ms|
    requires SessionFence.ReportsAt(world, ms, r, reported, key, epoch)
    requires var last := Runs.Run(SessionFence.After, world, ms[..k]).row;
             && FloorHistory.IsFor(last, key) && last.epoch == epoch
             && j < |later|
             && HelperRuns.EventAt(StartedFrom(last, key, from, every), later, j).AcceptedUnder?
    ensures var last := Runs.Run(SessionFence.After, world, ms[..k]).row;
            HelperRuns.EventAt(first, steps, i).index
            < HelperRuns.EventAt(StartedFrom(last, key, from, every), later, j).index
  {
    var ws := SessionFence.SinceTheReport(world, ms, r, k, reported, key, epoch);
    var row := Runs.Run(SessionFence.After, world, ms[..r]).row;
    ReportedNeverAgain(first, steps, i, reportAt, row, reported, key, epoch, ws, from, every, later, j);
  }

  /** What a helper reports it has accepted, and it has accepted nothing above it. */
  lemma ReportsAreTheMaximum(h: HelperRuns.Helper, steps: seq<HelperRuns.Step>, n: nat, force: bool, now: int)
    returns (i: nat)
    requires 0 < n <= |steps| && h.port.tally.highestIndex.None?
    requires PortSpec.ReportIndex(HelperRuns.Before(h, steps, n).port, force, now).1 != []
    ensures i < n && HelperRuns.EventAt(h, steps, i).AcceptedUnder?
    ensures PortSpec.ReportIndex(HelperRuns.Before(h, steps, n).port, force, now).1
         == [IndexReport(HelperRuns.EventAt(h, steps, i).index)]
    ensures forall k :: 0 <= k < n && HelperRuns.EventAt(h, steps, k).AcceptedUnder? ==>
              HelperRuns.EventAt(h, steps, k).index <= HelperRuns.EventAt(h, steps, i).index
  {
    i := SessionOverlap.HighestWasAccepted(h, steps, n);
    forall k | 0 <= k < n && HelperRuns.EventAt(h, steps, k).AcceptedUnder?
      ensures HelperRuns.EventAt(h, steps, k).index <= HelperRuns.EventAt(h, steps, i).index
    {
      HelperSessions.AcceptanceIsRemembered(h, steps, k, n);
    }
  }
}
