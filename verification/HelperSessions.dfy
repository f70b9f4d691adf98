/**
 * A helper's replay floor over its sessions: what separates one session's packets from the
 * next one's, and exactly when it does. Indexes here are the ones the helper computes;
 * `OracleRuns` is about the packets' own.
 */
module HelperSessions {
  import opened Wrappers
  import opened PacketIndex
  import opened PortSpec
  import opened PortLaws
  import opened HelperRuns
  import opened Runs

  /** Something at or above `x` has been accepted. */
  predicate Remembers(h: Helper, x: nat) {
    h.port.tally.highestIndex.Some? && h.port.tally.highestIndex.value >= x
  }

  predicate FloorAtLeast(h: Helper, x: nat) {
    h.port.floor.Some? && h.port.floor.value >= x
  }

  /** Everything accepted so far is at or below the floor. */
  predicate Sealed(h: Helper) {
    h.port.tally.highestIndex.Some? ==> FloorAtLeast(h, h.port.tally.highestIndex.value)
  }

  /** The floor may move only in a reset's second section, or when a torn-down pipeline is rebuilt. */
  predicate FloorStands(h: Helper, step: Step) {
    !Next(h, step).1.FloorMoved? && !Next(h, step).1.SessionEnded?
  }

  lemma OnlyPacketsAreAccepted(h: Helper, step: Step)
    requires !step.Authenticated?
    ensures After(h, step).port.tally.highestIndex == h.port.tally.highestIndex && !Next(h, step).1.AcceptedUnder?
  {
    match step
    case KeyRequested(_) =>
    case TickLooks =>
    case TickDecides(_, _) =>
    case TickSwitches(_) =>
    case KeyRemoved =>
    case FloorMoves =>
    case SearchRestarts =>
    case KeyForgotten =>
    case StartRead =>
    case TornDown =>
    case StopRead =>
    case FlushEnded =>
    case PipelineFailed =>
    case SignalReceived =>
  }

  lemma MemoryStep(h: Helper, step: Step, x: nat)
    ensures Remembers(h, x) ==> Remembers(After(h, step), x)
    ensures Next(h, step).1.AcceptedUnder? ==>
              Remembers(After(h, step), Next(h, step).1.index) && AboveFloor(h.port.floor, Next(h, step).1.index)
  {
    if step.Authenticated? {
      RecordLeaves(h.port, step.sn, step.at);
    } else {
      OnlyPacketsAreAccepted(h, step);
    }
  }

  lemma FloorKept(h: Helper, step: Step, x: nat)
    ensures FloorAtLeast(h, x) ==> FloorAtLeast(After(h, step), x)
    ensures FloorStands(h, step) ==> After(h, step).port.floor == h.port.floor
  {
    match step
    case KeyRequested(_) =>
    case Authenticated(sn, at) => RecordLeaves(h.port, sn, at);
    case TickLooks =>
    case TickDecides(_, _) =>
    case TickSwitches(_) =>
    case KeyRemoved =>
    case FloorMoves =>
    case SearchRestarts =>
    case KeyForgotten =>
    case StartRead =>
    case TornDown =>
    case StopRead =>
    case FlushEnded =>
    case PipelineFailed =>
    case SignalReceived =>
  }

  lemma FloorStep(h: Helper, step: Step, x: nat)
    ensures var (next, event) := Next(h, step);
            && (Remembers(h, x) ==> Remembers(next, x))
            && (FloorAtLeast(h, x) ==> FloorAtLeast(next, x))
            && (event.AcceptedUnder? ==> Remembers(next, event.index) && AboveFloor(h.port.floor, event.index))
            && (FloorStands(h, step) ==> next.port.floor == h.port.floor)
  {
    MemoryStep(h, step, x);
    FloorKept(h, step, x);
  }

  /** The step ends a session with the pipeline torn down: a start, a stop, a failure, a loss while producing. */
  predicate TearsDown(h: Helper, step: Step) {
    match step
    case TornDown => h.tick.Granting?
    case FlushEnded => h.tick.AtRest? && h.port.stopping
    case PipelineFailed => h.tick.AtRest? && h.port.mode.ProducingMode?
    case TickDecides(now, authLossMs) =>
      h.tick.Looked? && IsLost(h.port, h.tick.look, now, authLossMs) && h.port.mode.ProducingMode?
    case _ => false
  }

  /** Such a session is sealed, whatever came before; the only other end is a searching loss's. */
  lemma TearDownSeals(h: Helper, step: Step)
    ensures TearsDown(h, step) ==> Sealed(After(h, step)) && !After(h, step).keyed
    ensures Next(h, step).1.SessionEnded? <==> TearsDown(h, step) || (step.KeyForgotten? && h.tick.Forgetting?)
  {
  }

  lemma MemoryStays(h: Helper, steps: seq<Step>, i: nat, n: nat, x: nat)
    requires i <= n <= |steps| && Remembers(Before(h, steps, i), x)
    ensures Remembers(Before(h, steps, n), x)
  {
    var inv := t => Remembers(t, x);
    forall t, l | inv(t) && AnyStep(t, l)
      ensures inv(After(t, l))
    {
      FloorStep(t, l, x);
    }
    Keeps(After, inv, AnyStep, h, steps, i, n);
  }

  lemma FloorStays(h: Helper, steps: seq<Step>, i: nat, n: nat, x: nat)
    requires i <= n <= |steps| && FloorAtLeast(Before(h, steps, i), x)
    ensures FloorAtLeast(Before(h, steps, n), x)
  {
    var inv := t => FloorAtLeast(t, x);
    forall t, l | inv(t) && AnyStep(t, l)
      ensures inv(After(t, l))
    {
      FloorStep(t, l, x);
    }
    Keeps(After, inv, AnyStep, h, steps, i, n);
  }

  lemma AcceptanceIsRemembered(h: Helper, steps: seq<Step>, i: nat, n: nat)
    requires i < n <= |steps| && EventAt(h, steps, i).AcceptedUnder?
    ensures Remembers(Before(h, steps, n), EventAt(h, steps, i).index)
  {
    FloorStep(Before(h, steps, i), steps[i], 0);
    RunStep(After, h, steps, i);
    MemoryStays(h, steps, i + 1, n, EventAt(h, steps, i).index);
  }

  lemma AcceptanceIsAboveFloor(h: Helper, steps: seq<Step>, e: nat, j: nat, x: nat)
    requires e <= j < |steps| && FloorAtLeast(Before(h, steps, e), x) && EventAt(h, steps, j).AcceptedUnder?
    ensures x < EventAt(h, steps, j).index
  {
    FloorStays(h, steps, e, j, x);
    FloorStep(Before(h, steps, j), steps[j], 0);
  }

  /**
   * From whatever state a helper starts and through whatever sessions it runs: once a session
   * has ended sealed, everything accepted lies strictly above everything accepted before.
   */
  lemma LaterSessionsLieAbove(h: Helper, steps: seq<Step>, i: nat, e: nat, j: nat)
    requires i < e <= j < |steps| && Sealed(Before(h, steps, e))
    requires EventAt(h, steps, i).AcceptedUnder? && EventAt(h, steps, j).AcceptedUnder?
    ensures EventAt(h, steps, i).index < EventAt(h, steps, j).index
  {
    AcceptanceIsRemembered(h, steps, i, e);
    AcceptanceIsAboveFloor(h, steps, e, j, Before(h, steps, e).port.tally.highestIndex.value);
  }

  /** In particular, and without any condition, across a session that ends with its pipeline torn down. */
  lemma RebuiltSessionsLieAbove(h: Helper, steps: seq<Step>, i: nat, e: nat, j: nat)
    requires i < e < j < |steps| && TearsDown(Before(h, steps, e), steps[e])
    requires EventAt(h, steps, i).AcceptedUnder? && EventAt(h, steps, j).AcceptedUnder?
    ensures EventAt(h, steps, i).index < EventAt(h, steps, j).index
  {
    TearDownSeals(Before(h, steps, e), steps[e]);
    RunStep(After, h, steps, e);
    LaterSessionsLieAbove(h, steps, i, e + 1, j);
  }

  /**
   * While the floor stands, whether an authenticated packet is accepted depends on its
   * computed index and nothing that came before it.
   */
  lemma AcceptanceWithinSession(h: Helper, steps: seq<Step>, i: nat, n: nat)
    requires i <= n < |steps| && forall m :: i <= m < n ==> FloorStands(Before(h, steps, m), steps[m])
    requires steps[n].Authenticated? && steps[n].sn.Some? && Before(h, steps, n).keyed
    ensures var floor := Before(h, steps, i).port.floor;
            EventAt(h, steps, n).AcceptedUnder?
            <==> AboveFloor(floor, ComputedIndex(Before(h, steps, n).port.tally, steps[n].sn.value))
  {
    var floor := Before(h, steps, i).port.floor;
    var inv := (t: Helper) => t.port.floor == floor;
    forall t, l | inv(t) && FloorStands(t, l)
      ensures inv(After(t, l))
    {
      FloorStep(t, l, 0);
    }
    Keeps(After, inv, FloorStands, h, steps, i, n);
  }

  // ---------------------------------------------------------------- a reset under traffic

  /** A searching helper in the middle of resetting, having read `highest` over this floor. */
  predicate Resetting(h: Helper, highest: Option<nat>, floor: Option<nat>) {
    match h.tick
    case Losing(read) => read == highest && h.port.floor == floor
    case Restarting => h.port.floor == MoveFloor(h.port.(floor := floor), highest).floor
    case Forgetting => h.port.floor == MoveFloor(h.port.(floor := floor), highest).floor
    case _ => false
  }

  lemma ResettingStep(h: Helper, step: Step, highest: Option<nat>, floor: Option<nat>)
    requires Resetting(h, highest, floor) && WithinSession(h, step)
    ensures Resetting(After(h, step), highest, floor)
  {
    match step
    case Authenticated(sn, at) => RecordLeaves(h.port, sn, at);
    case FloorMoves =>
    case SearchRestarts =>
    case _ =>
  }

  lemma ResettingStays(h: Helper, steps: seq<Step>, b: nat, n: nat, highest: Option<nat>, floor: Option<nat>)
    requires b <= n <= |steps| && Resetting(Before(h, steps, b), highest, floor) && OneSession(h, steps, b, n)
    ensures Resetting(Before(h, steps, n), highest, floor)
  {
    var inv := t => Resetting(t, highest, floor);
    forall t, l | inv(t) && WithinSession(t, l)
      ensures inv(After(t, l))
    {
      ResettingStep(t, l, highest, floor);
    }
    Keeps(After, inv, WithinSession, h, steps, b, n);
  }

  /**
   * A searching helper's reset: before step `b` its first section has just read the maximum,
   * and step `e` is its last section.
   */
  predicate IsReset(h: Helper, steps: seq<Step>, b: nat, e: nat) {
    && b <= e < |steps| && OneSession(h, steps, b, e)
    && Before(h, steps, b).tick == Losing(Before(h, steps, b).port.tally.highestIndex)
    && Before(h, steps, e).tick.Forgetting? && steps[e].KeyForgotten?
  }

  lemma ResettingThroughout(h: Helper, steps: seq<Step>, b: nat, e: nat, n: nat)
    requires IsReset(h, steps, b, e) && b <= n <= e
    ensures Resetting(Before(h, steps, n), Before(h, steps, b).port.tally.highestIndex, Before(h, steps, b).port.floor)
  {
    ResettingStays(h, steps, b, n, Before(h, steps, b).port.tally.highestIndex, Before(h, steps, b).port.floor);
  }

  /** The step accepts nothing above `highest`. */
  predicate QuietStep(h: Helper, step: Step, highest: Option<nat>) {
    Next(h, step).1.AcceptedUnder? ==> highest.Some? && Next(h, step).1.index <= highest.value
  }

  /** No packet above what the reset's first section read is accepted before its last. */
  predicate IsQuiet(h: Helper, steps: seq<Step>, b: nat, e: nat)
    requires b <= e <= |steps|
  {
    forall m :: b <= m < e ==> QuietStep(Before(h, steps, m), steps[m], Before(h, steps, b).port.tally.highestIndex)
  }

  lemma QuietStepKeepsHighest(h: Helper, step: Step, highest: Option<nat>)
    requires QuietStep(h, step, highest) && h.port.tally.highestIndex == highest
    ensures After(h, step).port.tally.highestIndex == highest
  {
    if !step.Authenticated? {
      OnlyPacketsAreAccepted(h, step);
    }
  }

  lemma QuietKeepsHighest(h: Helper, steps: seq<Step>, b: nat, e: nat)
    requires b <= e <= |steps| && IsQuiet(h, steps, b, e)
    ensures Before(h, steps, e).port.tally.highestIndex == Before(h, steps, b).port.tally.highestIndex
  {
    var highest := Before(h, steps, b).port.tally.highestIndex;
    var inv := (t: Helper) => t.port.tally.highestIndex == highest;
    var quiet := (t, l) => QuietStep(t, l, highest);
    forall t, l | inv(t) && quiet(t, l)
      ensures inv(After(t, l))
    {
      QuietStepKeepsHighest(t, l, highest);
    }
    Keeps(After, inv, quiet, h, steps, b, e);
  }

  /** The last section of a reset changes neither the floor nor the maximum. */
  lemma LastSection(h: Helper, steps: seq<Step>, e: nat)
    requires e < |steps| && Before(h, steps, e).tick.Forgetting? && steps[e].KeyForgotten?
    ensures Before(h, steps, e + 1)
         == Before(h, steps, e).(port := EndSession(Before(h, steps, e).port), tick := AtRest)
  {
    RunStep(After, h, steps, e);
  }

  lemma LoudIsUnsealed(h: Helper, steps: seq<Step>, b: nat, e: nat, m: nat)
    requires IsReset(h, steps, b, e) && b <= m < e
    requires !QuietStep(Before(h, steps, m), steps[m], Before(h, steps, b).port.tally.highestIndex)
    ensures !Sealed(Before(h, steps, e))
  {
    AcceptanceIsRemembered(h, steps, m, e);
    ResettingThroughout(h, steps, b, e, m);
    ResettingThroughout(h, steps, b, e, e);
    FloorStep(Before(h, steps, m), steps[m], 0);
  }

  /** A searching loss seals its session exactly when its reset was quiet. */
  lemma SealedIffQuiet(h: Helper, steps: seq<Step>, b: nat, e: nat)
    requires IsReset(h, steps, b, e)
    ensures Sealed(Before(h, steps, e + 1)) <==> IsQuiet(h, steps, b, e)
  {
    LastSection(h, steps, e);
    if IsQuiet(h, steps, b, e) {
      ResettingThroughout(h, steps, b, e, e);
      QuietKeepsHighest(h, steps, b, e);
    } else {
      var m :| b <= m < e && !QuietStep(Before(h, steps, m), steps[m], Before(h, steps, b).port.tally.highestIndex);
      LoudIsUnsealed(h, steps, b, e, m);
    }
  }

  // ---------------------------------------------------------------- when sessions overlap

  /** A sane helper; a candidate just chosen is one the search's base or its packets account for. */
  predicate SaneHelper(h: Helper, sent: Option<nat>) {
    Sane(h.port, sent) && PlaceSane(h)
  }

  predicate CandidateLow(p: Port) {
    p.candidate <= FloorRoc(p.floor) || (p.tally.highestIndex.Some? && p.candidate <= Roc(p.tally.highestIndex.value))
  }

  lemma StreamingKeepsSane(h: Helper, step: Step, sent: Option<nat>)
    requires Sane(h.port, sent) && (step.KeyRequested? || step.Authenticated?)
    ensures Sane(After(h, step).port, sent)
  {
    match step
    case KeyRequested(ssrc) => RequestKeyKeepsSane(h.port, sent, ssrc);
    case Authenticated(sn, at) => RecordKeepsSane(h.port, sent, sn, at);
  }

  lemma DecisionKeepsSane(h: Helper, now: int, authLossMs: nat, sent: Option<nat>)
    requires Sane(h.port, sent)
    ensures Sane(After(h, TickDecides(now, authLossMs)).port, sent)
  {
    if h.tick.Looked? {
      if IsLost(h.port, h.tick.look, now, authLossMs) {
        ResetKeepsSane(h.port, sent, None);
      } else {
        ConfirmKeepsSane(h.port, sent, h.tick.look, now);
      }
    }
  }

  lemma TickKeepsSane(h: Helper, step: Step, sent: Option<nat>)
    requires Sane(h.port, sent) && (step.TickLooks? || step.TickSwitches? || step.KeyRemoved?)
    ensures Sane(After(h, step).port, sent)
  {
    match step
    case TickLooks => LookKeepsSane(h.port, sent);
    case TickSwitches(_) => SwitchKeepsSane(h.port, sent);
    case KeyRemoved =>
  }

  lemma ResetSectionKeepsSane(h: Helper, step: Step, sent: Option<nat>)
    requires SaneHelper(h, sent) && (step.FloorMoves? || step.SearchRestarts? || step.KeyForgotten? || step.TornDown?)
    ensures Sane(After(h, step).port, sent)
  {
    match step
    case FloorMoves =>
      if h.tick.Losing? {
        MoveFloorKeepsSane(h.port, sent, h.tick.highest);
      }
    case SearchRestarts => RestartKeepsSane(h.port, sent, None);
    case KeyForgotten => EndKeepsSane(h.port, sent);
    case TornDown =>
      if h.tick.Granting? {
        ResetKeepsSane(h.port, sent, h.tick.seed);
      }
  }

  lemma CallbackKeepsSane(h: Helper, step: Step, sent: Option<nat>)
    requires Sane(h.port, sent) && (step.FlushEnded? || step.PipelineFailed?)
    ensures Sane(After(h, step).port, sent)
  {
    ResetKeepsSane(h.port, sent, None);
  }

  lemma CommandKeepsSane(h: Helper, step: Step, sent: Option<nat>)
    requires Sane(h.port, sent) && (step.StartRead? || step.StopRead? || step.SignalReceived?)
    ensures Sane(After(h, step).port, sent)
  {
  }

  /** What the main loop remembers between its sections. */
  predicate PlaceSane(h: Helper) {
    && (h.tick.Losing? && h.tick.highest.Some? ==> Remembers(h, h.tick.highest.value))
    && (h.tick.Granting? && h.tick.seed.Some? ==> h.tick.seed.value <= ROC_MAX)
    && (h.tick.Forgetting? ==> CandidateLow(h.port))
  }

  lemma StreamingKeepsPlace(h: Helper, step: Step, sent: Option<nat>)
    requires SaneHelper(h, sent) && (step.KeyRequested? || step.Authenticated?)
    ensures PlaceSane(After(h, step))
  {
    if step.Authenticated? {
      RecordLeaves(h.port, step.sn, step.at);
    }
  }

  lemma MainLoopKeepsPlace(h: Helper, step: Step, sent: Option<nat>)
    requires SaneHelper(h, sent) && !step.KeyRequested? && !step.Authenticated?
    ensures PlaceSane(After(h, step))
  {
    if step.SearchRestarts? {
      RestartKeepsSane(h.port, sent, None);
    }
  }

  lemma SaneStep(h: Helper, step: Step, sent: Option<nat>)
    requires SaneHelper(h, sent)
    ensures SaneHelper(After(h, step), sent)
  {
    if step.KeyRequested? || step.Authenticated? {
      StreamingKeepsPlace(h, step, sent);
    } else {
      MainLoopKeepsPlace(h, step, sent);
    }
    if step.KeyRequested? || step.Authenticated? {
      StreamingKeepsSane(h, step, sent);
    } else if step.TickDecides? {
      DecisionKeepsSane(h, step.now, step.authLossMs, sent);
    } else if step.TickLooks? || step.TickSwitches? || step.KeyRemoved? {
      TickKeepsSane(h, step, sent);
    } else if step.FloorMoves? || step.SearchRestarts? || step.KeyForgotten? || step.TornDown? {
      ResetSectionKeepsSane(h, step, sent);
    } else if step.StartRead? || step.StopRead? || step.SignalReceived? {
      CommandKeepsSane(h, step, sent);
    } else {
      CallbackKeepsSane(h, step, sent);
    }
  }

  lemma AlwaysSane(ssrc: nat, floor: Option<nat>, from: Option<int>, every: int, steps: seq<Step>, n: nat)
    requires n <= |steps|
    ensures SaneHelper(Before(Rebuilt(Started(ssrc, floor, from, every)), steps, n), SentFloor(floor))
  {
    var sent := SentFloor(floor);
    var inv := t => SaneHelper(t, sent);
    StartedIsSane(ssrc, floor, from, every);
    forall t, l | inv(t)
      ensures inv(After(t, l))
    {
      SaneStep(t, l, sent);
    }
    Always(After, inv, Rebuilt(Started(ssrc, floor, from, every)), steps[..n]);
  }
}
