/** The helper object under its two threads: turn by turn, the objects do what the runs say. */
module HelperThreads {
  import opened Wrappers
  import opened HelperFrames
  import opened HelperPort
  import opened HelperRuns
  import opened HelperSessions
  import opened PacketIndex
  import opened PortSpec
  import opened Runs
  import opened PortLaws

  /** `tick` is where the main loop is; `keyed`, whether the authenticator has a key. */
  class HelperProcess {
    const port: SrtpPort
    var tick: HelperRuns.Tick
    var keyed: bool

    function View(): Helper
      reads this, port, port.counters, port.candidates
    {
      Helper(port.View(), tick, keyed)
    }

    ghost predicate Valid()
      reads this, port, port.counters, port.candidates
    {
      SaneHelper(View(), port.sent)
    }

    constructor (ssrc: nat, floor: Option<nat>, from: Option<int>, every: int)
      ensures Valid() && View() == Rebuilt(Started(ssrc, floor, from, every)) && port.sent == SentFloor(floor)
      ensures fresh(port) && fresh(port.counters) && fresh(port.candidates)
    {
      port := new SrtpPort(ssrc, floor, from, every);
      tick, keyed := AtRest, false;
    }

    method StreamingTurn(step: Step) returns (event: Event)
      requires Valid() && (step.KeyRequested? || step.Authenticated?)
      modifies this, port, port.counters
      ensures (View(), event) == Next(old(View()), step) && port.candidates == old(port.candidates)
    {
      event := Nothing;
      match step {
        case KeyRequested(ssrc) =>
          var key, _ := port.OnRequestKey(ssrc);
          if key.Some? {
            keyed := true;
            event := HandedKey(key.value);
          }
        case Authenticated(sn, at) =>
          if keyed {
            var under := port.counters.keyCandidate;
            var computed := IndexOf(sn);
            var accepted := port.RecordAuthenticated(sn, at);
            event := if accepted then AcceptedUnder(under, computed) else Refused;
          }
      }
    }

    function IndexOf(sn: Option<SequenceNumber>): nat
      reads this, port, port.counters
    {
      if sn.None? then 0 else ComputedIndex(port.counters.View(), sn.value)
    }

    method TickTurn(step: Step) returns (event: Event)
      requires Valid() && (step.TickLooks? || step.TickDecides? || step.TickSwitches? || step.KeyRemoved?)
      modifies this, port, port.counters, port.candidates
      ensures (View(), event) == Next(old(View()), step)
      ensures port.candidates == old(port.candidates) || fresh(port.candidates)
    {
      event := Nothing;
      match step {
        case TickLooks =>
          if tick.AtRest? && !port.shuttingDown {
            var look := port.TickLook();
            tick := Looked(look);
          }
        case TickDecides(now, authLossMs) =>
          if tick.Looked? {
            event := Decide(tick.look, now, authLossMs);
          }
        case TickSwitches(tried) =>
          if tick.Switching? {
            var frames := port.AdvanceSearchIfTried(1, Evidence(0, if tried then 1 else 0, false));
            if frames == [] {
              tick := AtRest;
            } else {
              tick, event := Removing, SearchAdvanced;
            }
          }
        case KeyRemoved =>
          if tick.Removing? {
            tick := AtRest;
          }
      }
    }

    method Decide(look: Look, now: int, authLossMs: nat) returns (event: Event)
      requires Valid() && tick == Looked(look)
      modifies this, port, port.counters
      ensures (View(), event) == Next(old(View()), TickDecides(now, authLossMs))
      ensures port.candidates == old(port.candidates) || fresh(port.candidates)
    {
      event := Nothing;
      if IsLost(port.View(), look, now, authLossMs) {
        if port.mode.ProducingMode? {
          var _ := port.GiveUp();
          tick, keyed, event := AtRest, false, SessionEnded;
        } else {
          tick, event := Losing(port.counters.highestIndex), LossRead;
        }
      } else if look.authenticated == 0 && !port.confirmed {
        tick := Switching;
      } else {
        var frames := port.Confirm(look, now);
        tick := AtRest;
        if FirstNamed(frames).Some? {
          event := Confirmed(FirstNamed(frames).value);
        }
      }
    }

    method ResetTurn(step: Step) returns (event: Event)
      requires Valid() && (step.FloorMoves? || step.SearchRestarts? || step.KeyForgotten? || step.TornDown?)
      modifies this, port, port.counters
      ensures (View(), event) == Next(old(View()), step)
      ensures port.candidates == old(port.candidates) || fresh(port.candidates)
    {
      event := Nothing;
      match step {
        case FloorMoves =>
          if tick.Losing? {
            port.MoveFloor(tick.highest);
            tick, event := Restarting, FloorMoved;
          }
        case SearchRestarts =>
          if tick.Restarting? {
            port.RestartSearch(None);
            tick, event := Forgetting, SearchRestarted;
          }
        case KeyForgotten =>
          if tick.Forgetting? {
            port.ForgetSession();
            tick, event := AtRest, SessionEnded;
          }
        case TornDown =>
          if tick.Granting? {
            port.Grant(tick.seed);
            tick, keyed, event := AtRest, false, SessionEnded;
          }
      }
    }

    method CallbackTurn(step: Step) returns (event: Event)
      requires Valid()
      requires step.StartRead? || step.StopRead? || step.FlushEnded? || step.PipelineFailed? || step.SignalReceived?
      modifies this, port, port.counters
      ensures (View(), event) == Next(old(View()), step)
      ensures port.candidates == old(port.candidates) || fresh(port.candidates)
    {
      event := Nothing;
      if !tick.AtRest? {
        return;
      }
      match step {
        case StartRead =>
          if MayStart(port.View()) {
            tick := Granting(StartSeed(port.View()));
          }
        case StopRead =>
          var _ := port.CmdStop();
        case FlushEnded =>
          if port.stopping {
            var _ := port.FinishStop();
            keyed, event := false, SessionEnded;
          }
        case PipelineFailed =>
          if port.mode.ProducingMode? {
            var _, _ := port.OnPipelineError();
            keyed, event := false, SessionEnded;
          }
        case SignalReceived =>
          port.shuttingDown := true;
      }
    }

    /** One turn of either thread. */
    method Turn(step: Step) returns (event: Event)
      requires Valid()
      modifies this, port, port.counters, port.candidates
      ensures Valid() && (View(), event) == Next(old(View()), step)
      ensures port.candidates == old(port.candidates) || fresh(port.candidates)
    {
      SaneStep(View(), step, port.sent);
      if step.KeyRequested? || step.Authenticated? {
        event := StreamingTurn(step);
      } else if step.TickLooks? || step.TickDecides? || step.TickSwitches? || step.KeyRemoved? {
        event := TickTurn(step);
      } else if step.FloorMoves? || step.SearchRestarts? || step.KeyForgotten? || step.TornDown? {
        event := ResetTurn(step);
      } else {
        event := CallbackTurn(step);
      }
    }
  }

  /**
   * A helper process through any sequence of turns is the helper of the run: its floor was sent
   * or earned, its tracker stands on no index still to be accepted, and nothing unaccepted has
   * been reported.
   */
  method Work(ssrc: nat, floor: Option<nat>, from: Option<int>, every: int, steps: seq<Step>)
    returns (helper: HelperProcess)
    ensures helper.Valid() && helper.port.sent == SentFloor(floor)
    ensures helper.View() == Run(After, Rebuilt(Started(ssrc, floor, from, every)), steps)
  {
    helper := new HelperProcess(ssrc, floor, from, every);
    ghost var h := helper.View();
    assert steps[..0] == [];
    for n := 0 to |steps|
      invariant helper.Valid() && helper.port.sent == SentFloor(floor)
      invariant fresh(helper) && fresh(helper.port) && fresh(helper.port.counters) && fresh(helper.port.candidates)
      invariant helper.View() == Run(After, h, steps[..n])
    {
      RunStep(After, h, steps, n);
      var _ := helper.Turn(steps[n]);
    }
    assert steps[..|steps|] == steps;
  }
}
