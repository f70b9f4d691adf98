/**
 * What a helper owes its supervisor, over whole runs: when it gives a sender up, confirms a key,
 * tells of a rollover, reports its highest index, and what its last word on production is.
 */
module HelperDuties {
  import opened Wrappers
  import opened PacketIndex
  import opened HelperFrames
  import opened PortSpec
  import opened HelperRuns
  import opened HelperSessions
  import opened CarriedSearch
  import opened HandOuts
  import opened Runs
  import PortLaws
  import RolloverSearch
  import SessionOverlap

  /** What a step of the main loop writes. */
  function Writes(h: Helper, step: Step): seq<Frame> {
    match step
    case TickDecides(now, authLossMs) =>
      if !h.tick.Looked? then []
      else if IsLost(h.port, h.tick.look, now, authLossMs) then
        if h.port.mode.ProducingMode? then GiveUp(h.port).1 else []
      else if h.tick.look.authenticated == 0 && !h.port.confirmed then []
      else Confirm(h.port, h.tick.look, now).1
    case KeyForgotten => if h.tick.Forgetting? then [AuthLost] else []
    case TickSwitches(tried) => if h.tick.Switching? && tried then Switch(h.port).1 else []
    case TornDown => if h.tick.Granting? then [ProducingStarted] else []
    case StopRead => if h.tick.AtRest? then CmdStop(h.port).1 else []
    case FlushEnded => if h.tick.AtRest? then FinishStop(h.port).1 else []
    case PipelineFailed => if h.tick.AtRest? then PipelineError(h.port).1 else []
    case _ => []
  }

  function WritesAt(h: Helper, steps: seq<Step>, i: nat): seq<Frame>
    requires i < |steps|
  {
    Writes(Before(h, steps, i), steps[i])
  }

  /** What a tick that nothing interrupts writes is what its sections write, in order. */
  lemma TickWritesItsSections(h: Helper, now: int, authLossMs: nat, trialDrops: nat, e: Evidence)
    requires h.tick.AtRest?
    ensures var looked, decision := After(h, TickLooks), TickDecides(now, authLossMs);
            var switch := TickSwitches(IsTried(e, trialDrops));
            var decided := After(looked, decision);
            var reset := After(After(decided, FloorMoves), SearchRestarts);
            Writes(looked, decision) + Writes(reset, KeyForgotten) + Writes(After(reset, KeyForgotten), switch)
            == PortSpec.Tick(h.port, now, authLossMs, trialDrops, e).1
  {
  }

  /** And so for a start, which says so when production has begun, and only then. */
  lemma StartWritesItsSections(h: Helper)
    requires h.tick.AtRest?
    ensures var read := After(h, StartRead);
            && Writes(h, StartRead) + Writes(read, TornDown) == CmdStart(h.port).1
            && (ProducingStarted in CmdStart(h.port).1 <==>
                  h.port.mode.SearchingMode? && CmdStart(h.port).0.mode.ProducingMode?)
  {
  }

  // ---------------------------------------------------------------- one tick

  /** A tick's look, and its decision, with the streaming thread's steps alone between them. */
  predicate IsTick(h: Helper, steps: seq<Step>, i: nat, n: nat) {
    && i < n < |steps| && steps[i].TickLooks? && AllStream(steps, i + 1, n) && steps[n].TickDecides?
    && Before(h, steps, i).tick.AtRest? && !Before(h, steps, i).port.shuttingDown
  }

  /** What the decision is made on. */
  predicate DecidesOn(h: Helper, seen: Port) {
    && h.tick == Looked(TickLook(seen).1) && h.port.confirmed == seen.confirmed && h.port.mode == seen.mode
  }

  lemma LookStep(h: Helper)
    requires h.tick.AtRest? && !h.port.shuttingDown
    ensures DecidesOn(After(h, TickLooks), h.port)
  {
  }

  lemma StreamKeepsDecision(h: Helper, step: Step, seen: Port)
    requires DecidesOn(h, seen) && IsStreaming(step)
    ensures DecidesOn(After(h, step), seen)
  {
    if step.Authenticated? {
      PortLaws.RecordLeaves(h.port, step.sn, step.at);
    }
  }

  lemma DecidesOnLook(h: Helper, steps: seq<Step>, i: nat, n: nat)
    requires IsTick(h, steps, i, n)
    ensures DecidesOn(Before(h, steps, n), Before(h, steps, i).port)
  {
    var seen := Before(h, steps, i).port;
    LookStep(Before(h, steps, i));
    RunStep(After, h, steps, i);
    var inv := t => DecidesOn(t, seen);
    forall t, l | inv(t) && OnlyStreams(t, l)
      ensures inv(After(t, l))
    {
      StreamKeepsDecision(t, l, seen);
    }
    Keeps(After, inv, OnlyStreams, h, steps, i + 1, n);
  }

  // ---------------------------------------------------------------- losing the sender

  predicate AcceptsAt(h: Helper, step: Step) {
    Next(h, step).1.AcceptedUnder?
  }

  /** When the last packet of the first `n` steps was accepted; 0 if none was. */
  function LastAccepted(h: Helper, steps: seq<Step>, n: nat): nat
    requires n <= |steps|
  {
    if n == 0 then 0
    else if AcceptsAt(Before(h, steps, n - 1), steps[n - 1]) && steps[n - 1].Authenticated? then steps[n - 1].at
    else LastAccepted(h, steps, n - 1)
  }

  lemma TimeStep(h: Helper, step: Step)
    ensures After(h, step).port.tally.lastAuthMs
         == if AcceptsAt(h, step) && step.Authenticated? then step.at else h.port.tally.lastAuthMs
  {
    match step
    case KeyRequested(_) =>
    case Authenticated(_, _) =>
    case TickLooks =>
    case TickDecides(_, _) =>
    case TickSwitches(_) =>
    case KeyRemoved =>
    case FloorMoves =>
    case SearchRestarts =>
    case KeyForgotten =>
    case StartRead =>
    case TornDown =>
    case StopRead =>
    case FlushEnded =>
    case PipelineFailed =>
    case SignalReceived =>
  }

  lemma {:induction false} TimeIsLast(h: Helper, steps: seq<Step>, n: nat)
    requires h.port.tally.lastAuthMs == 0 && n <= |steps|
    ensures Before(h, steps, n).port.tally.lastAuthMs == LastAccepted(h, steps, n)
  {
    if n == 0 {
      assert steps[..0] == [];
    } else {
      TimeIsLast(h, steps, n - 1);
      TimeStep(Before(h, steps, n - 1), steps[n - 1]);
      RunStep(After, h, steps, n - 1);
    }
  }

  /** Given up at a tick that has just read so: the last packet is too long ago, and somebody relies on more. */
  predicate IsOverdue(h: Helper, steps: seq<Step>, i: nat, now: int, authLossMs: nat)
    requires i <= |steps|
  {
    var last, p := LastAccepted(h, steps, i), Before(h, steps, i).port;
    last > 0 && now - last > authLossMs && (p.confirmed || p.mode.ProducingMode?)
  }

  /**
   * In every run of a helper: a tick gives the sender up exactly when the last packet accepted before
   * it looked is longer ago than the limit, and the key was confirmed or the port produces - a port
   * that never accepted anything is never lost. A producing session ends there; a searching one
   * begins its reset.
   */
  lemma GivenUpIffOverdue(h: Helper, steps: seq<Step>, i: nat, n: nat)
    requires h.port.tally.lastAuthMs == 0 && IsTick(h, steps, i, n)
    ensures var overdue := IsOverdue(h, steps, i, steps[n].now, steps[n].authLossMs);
            var producing := Before(h, steps, i).port.mode.ProducingMode?;
            && (EventAt(h, steps, n).SessionEnded? <==> overdue && producing)
            && (EventAt(h, steps, n).LossRead? <==> overdue && !producing)
  {
    TimeIsLast(h, steps, i);
    DecidesOnLook(h, steps, i, n);
    DecisionGivesUp(Before(h, steps, n), Before(h, steps, i).port, steps[n].now, steps[n].authLossMs);
  }

  lemma DecisionGivesUp(h: Helper, seen: Port, now: int, authLossMs: nat)
    requires DecidesOn(h, seen)
    ensures var event, last := Next(h, TickDecides(now, authLossMs)).1, seen.tally.lastAuthMs;
            var lost := last > 0 && now - last > authLossMs && (seen.confirmed || seen.mode.ProducingMode?);
            && (event.SessionEnded? <==> lost && seen.mode.ProducingMode?)
            && (event.LossRead? <==> lost && !seen.mode.ProducingMode?)
  {
  }

  // ---------------------------------------------------------------- confirming a key

  lemma DecisionConfirms(h: Helper, seen: Port, now: int, authLossMs: nat)
    requires DecidesOn(h, seen)
    ensures var (next, event) := Next(h, TickDecides(now, authLossMs));
            var due := seen.tally.keyAuthenticated > 0 && !seen.confirmed;
            && (event.Confirmed? <==> due && !event.SessionEnded? && !event.LossRead?)
            && (event.Confirmed? ==> next.port.confirmed && event.named == h.port.candidate)
            && (event.Confirmed? ==>
                  AuthOk(true, seen.tally.roc, seen.tally.highestSeq, Some(h.port.candidate))
                  in Writes(h, TickDecides(now, authLossMs)))
  {
  }

  /**
   * A packet accepted under a key is the key's confirmation at the first tick that looks afterwards
   * and does not give the sender up, whatever the streaming thread does meanwhile; and the helper
   * says so, with the counter and sequence number the tracker had reached.
   */
  lemma AcceptedIsConfirmed(h: Helper, steps: seq<Step>, a: nat, i: nat, n: nat)
    requires FreshSession(h) && a < i && IsTick(h, steps, i, n) && OneSession(h, steps, 0, n + 1)
    requires EventAt(h, steps, a).AcceptedUnder?
    requires !Before(h, steps, i).port.confirmed && !EventAt(h, steps, n).LossRead?
    ensures EventAt(h, steps, a).key.Some? && EventAt(h, steps, n) == Confirmed(EventAt(h, steps, a).key.value)
    ensures var seen := Before(h, steps, i).port;
            AuthOk(true, seen.tally.roc, seen.tally.highestSeq, EventAt(h, steps, a).key) in WritesAt(h, steps, n)
  {
    assert steps[..0] == [];
    AcceptanceCredits(h, steps, 0, a);
    var c := EventAt(h, steps, a).key.value;
    CreditStays(h, steps, a + 1, i, c);
    DecidesOnLook(h, steps, i, n);
    DecisionConfirms(Before(h, steps, n), Before(h, steps, i).port, steps[n].now, steps[n].authLossMs);
    CreditStays(h, steps, a + 1, n, c);
    CreditStep(Before(h, steps, n), steps[n]);
  }

  // ---------------------------------------------------------------- calling the search

  lemma DecisionSwitches(h: Helper, seen: Port, now: int, authLossMs: nat)
    requires DecidesOn(h, seen)
    ensures var (next, event) := Next(h, TickDecides(now, authLossMs));
            next.tick.Switching? <==>
              seen.tally.keyAuthenticated == 0 && !seen.confirmed && !event.SessionEnded? && !event.LossRead?
  {
  }

  lemma SwitchIsCall(h: Helper, step: Step)
    requires step.TickSwitches?
    ensures Next(h, step).1.SearchAdvanced?
       <==> h.tick.Switching? && step.tried && h.port.tally.keyAuthenticated == 0
  {
  }

  /** A decision to switch stands while the streaming thread goes on. */
  lemma SwitchingStands(h: Helper, steps: seq<Step>, n: nat, s: nat)
    requires n < s <= |steps| && AllStream(steps, n + 1, s)
    ensures Before(h, steps, s).tick == After(Before(h, steps, n), steps[n]).tick
  {
    RunStep(After, h, steps, n);
    MainLoopStands(h, steps, n + 1, s);
  }

  /**
   * A whole tick with the streaming thread's steps between its sections: it steps the search exactly
   * when the candidate was tried, the session is neither confirmed nor given up, and nothing had
   * authenticated under the key - neither when it looked first nor when it looked last.
   */
  lemma TickStepsIffTried(h: Helper, steps: seq<Step>, i: nat, n: nat, s: nat)
    requires IsTick(h, steps, i, n) && n < s < |steps| && AllStream(steps, n + 1, s) && steps[s].TickSwitches?
    ensures var seen, last := Before(h, steps, i).port, Before(h, steps, s).port;
            EventAt(h, steps, s).SearchAdvanced? <==>
              && steps[s].tried && !seen.confirmed && !EventAt(h, steps, n).SessionEnded? && !EventAt(h, steps, n).LossRead?
              && seen.tally.keyAuthenticated == 0 && last.tally.keyAuthenticated == 0
  {
    DecidesOnLook(h, steps, i, n);
    DecisionSwitches(Before(h, steps, n), Before(h, steps, i).port, steps[n].now, steps[n].authLossMs);
    SwitchingStands(h, steps, n, s);
    SwitchIsCall(Before(h, steps, s), steps[s]);
  }

  /**
   * What counts as tried: rejected often enough, or time up with something arrived that did not
   * authenticate. However long a port is idle, its candidate stays.
   */
  lemma SteppedIffTried(p: Port, now: int, authLossMs: nat, trialDrops: nat, e: Evidence)
    requires !p.shuttingDown && !p.confirmed && p.tally.keyAuthenticated == 0 && p.mode.SearchingMode?
    ensures var next := RolloverSearch.Step(p.search);
            var (q, frames) := PortSpec.Tick(p, now, authLossMs, trialDrops, e);
            if e.drops >= trialDrops || (e.inputs > 0 && e.timedOut)
            then && q.search == next.0 && q.candidate == next.1 && q.carried == Some(next.0.far)
                 && frames == [AuthFail(p.candidate, Some(next.0.far))]
            else q == p.(tally := p.tally.(rocChanged := false)) && frames == []
    ensures e.inputs == 0 && e.drops == 0 && trialDrops > 0 ==>
              PortSpec.Tick(p, now, authLossMs, trialDrops, e).0.candidate == p.candidate
  {
  }

  // ---------------------------------------------------------------- telling of a rollover

  /** The packet takes the tracker to another counter. */
  predicate RollsOver(h: Helper, step: Step) {
    step.Authenticated? && After(h, step).port.tally.roc != h.port.tally.roc
  }

  /** A tick looks, and has seen whatever there was. */
  predicate LooksAt(h: Helper, step: Step) {
    step.TickLooks? && h.tick.AtRest? && !h.port.shuttingDown
  }

  /** Neither a look, nor a new key, nor the end of the session: nothing that forgets a rollover. */
  predicate LeavesRollover(h: Helper, step: Step) {
    WithinSession(h, step) && HandsNothingOut(h, step) && !LooksAt(h, step)
  }

  predicate IsPlaced(c: Tally) {
    c.roc <= ROC_MAX && (c.highestSeq.Some? ==> c.highestSeq.value < SEQ_MODULO)
  }

  lemma PacketRolls(c: Tally, sn: SequenceNumber)
    requires IsPlaced(c)
    ensures Track(c, sn).rocChanged <==> c.rocChanged || Track(c, sn).roc != c.roc
  {
    IndexParts(c.roc, if c.highestSeq.None? then sn else c.highestSeq.value);
    PortLaws.TrackingStaysInRange(c, sn);
  }

  lemma RolloverStep(h: Helper, step: Step)
    requires IsPlaced(h.port.tally) && LeavesRollover(h, step)
    ensures After(h, step).port.tally.rocChanged <==> h.port.tally.rocChanged || RollsOver(h, step)
  {
    match step
    case KeyRequested(_) =>
    case Authenticated(sn, _) => if sn.Some? { PacketRolls(h.port.tally, sn.value); }
    case TickLooks =>
    case TickDecides(_, _) =>
    case TickSwitches(_) =>
    case KeyRemoved =>
    case FloorMoves =>
    case SearchRestarts =>
    case KeyForgotten =>
    case StartRead =>
    case TornDown =>
    case StopRead =>
    case FlushEnded =>
    case PipelineFailed =>
    case SignalReceived =>
  }

  lemma RolloverForgotten(h: Helper, step: Step)
    ensures !LeavesRollover(h, step) ==> !After(h, step).port.tally.rocChanged
  {
    match step
    case KeyRequested(_) =>
    case Authenticated(_, _) =>
    case TickLooks =>
    case TickDecides(_, _) =>
    case TickSwitches(_) =>
    case KeyRemoved =>
    case FloorMoves =>
    case SearchRestarts =>
    case KeyForgotten =>
    case StartRead =>
    case TornDown =>
    case StopRead =>
    case FlushEnded =>
    case PipelineFailed =>
    case SignalReceived =>
  }

  /** A helper process at its start. */
  ghost predicate IsProcess(h: Helper) {
    exists floor, from :: h == Rebuilt(Started(h.port.ssrc, floor, from, h.port.floorEvery))
  }

  lemma AlwaysPlaced(h: Helper, steps: seq<Step>, n: nat)
    requires IsProcess(h) && n <= |steps|
    ensures IsPlaced(Before(h, steps, n).port.tally)
  {
    var floor, from :| h == Rebuilt(Started(h.port.ssrc, floor, from, h.port.floorEvery));
    AlwaysSane(h.port.ssrc, floor, from, h.port.floorEvery, steps, n);
  }

  predicate HasRolled(h: Helper) {
    h.port.tally.rocChanged
  }

  predicate LeavesPlaced(h: Helper, step: Step) {
    IsPlaced(h.port.tally) && LeavesRollover(h, step)
  }

  lemma RolloverStands(h: Helper, steps: seq<Step>, r: nat, n: nat)
    requires IsProcess(h) && r < n <= |steps| && RollsOver(Before(h, steps, r), steps[r])
    requires forall m :: r < m < n ==> LeavesRollover(Before(h, steps, m), steps[m])
    ensures HasRolled(Before(h, steps, n))
  {
    AlwaysPlaced(h, steps, r);
    RolloverStep(Before(h, steps, r), steps[r]);
    RunStep(After, h, steps, r);
    forall m | r < m < n
      ensures LeavesPlaced(Before(h, steps, m), steps[m])
    {
      AlwaysPlaced(h, steps, m);
    }
    forall t, l | HasRolled(t) && LeavesPlaced(t, l)
      ensures HasRolled(After(t, l))
    {
      RolloverStep(t, l);
    }
    Keeps(After, HasRolled, LeavesPlaced, h, steps, r + 1, n);
  }

  predicate PlacedStep(h: Helper, step: Step) {
    IsPlaced(h.port.tally)
  }

  lemma RolloverHasSource(h: Helper, steps: seq<Step>, n: nat) returns (r: nat)
    requires IsProcess(h) && n <= |steps| && HasRolled(Before(h, steps, n))
    ensures r < n && RollsOver(Before(h, steps, r), steps[r])
    ensures forall m :: r < m < n ==> LeavesRollover(Before(h, steps, m), steps[m])
  {
    forall m | 0 <= m < n
      ensures PlacedStep(Before(h, steps, m), steps[m])
    {
      AlwaysPlaced(h, steps, m);
    }
    forall t, l | PlacedStep(t, l) && HasRolled(After(t, l))
      ensures LeavesRollover(t, l) && (RollsOver(t, l) || HasRolled(t))
    {
      RolloverForgotten(t, l);
      RolloverStep(t, l);
    }
    r := Source(After, HasRolled, RollsOver, LeavesRollover, PlacedStep, h, steps, n);
  }

  /** The frame that says the counter has moved on. */
  function MovedOn(p: Port): Frame {
    AuthOk(false, p.tally.roc, p.tally.highestSeq, None)
  }

  lemma DecisionTells(h: Helper, seen: Port, now: int, authLossMs: nat)
    requires DecidesOn(h, seen) && seen.confirmed
    ensures var step := TickDecides(now, authLossMs);
            var event := Next(h, step).1;
            && (!event.SessionEnded? && !event.LossRead? ==>
                  (MovedOn(seen) in Writes(h, step) <==> seen.tally.rocChanged))
            && (event.SessionEnded? || event.LossRead? ==> MovedOn(seen) !in Writes(h, step))
  {
  }

  /**
   * In every run: a rollover in a confirmed session is told of at the next tick that looks and does
   * not give the sender up, with the counter and sequence number by then.
   */
  lemma RolloverIsTold(h: Helper, steps: seq<Step>, r: nat, i: nat, n: nat)
    requires IsProcess(h) && r < i && IsTick(h, steps, i, n) && RollsOver(Before(h, steps, r), steps[r])
    requires forall m :: r < m < i ==> LeavesRollover(Before(h, steps, m), steps[m])
    requires Before(h, steps, i).port.confirmed && !EventAt(h, steps, n).SessionEnded? && !EventAt(h, steps, n).LossRead?
    ensures MovedOn(Before(h, steps, i).port) in WritesAt(h, steps, n)
  {
    RolloverStands(h, steps, r, i);
    DecidesOnLook(h, steps, i, n);
    DecisionTells(Before(h, steps, n), Before(h, steps, i).port, steps[n].now, steps[n].authLossMs);
  }

  /** And is never told of but after one that no look has seen before. */
  lemma ToldOfARollover(h: Helper, steps: seq<Step>, i: nat, n: nat) returns (r: nat)
    requires IsProcess(h) && IsTick(h, steps, i, n) && Before(h, steps, i).port.confirmed
    requires MovedOn(Before(h, steps, i).port) in WritesAt(h, steps, n)
    ensures r < i && RollsOver(Before(h, steps, r), steps[r])
    ensures forall m :: r < m < i ==> LeavesRollover(Before(h, steps, m), steps[m])
  {
    DecidesOnLook(h, steps, i, n);
    DecisionTells(Before(h, steps, n), Before(h, steps, i).port, steps[n].now, steps[n].authLossMs);
    r := RolloverHasSource(h, steps, i);
  }

  // ---------------------------------------------------------------- reporting the highest index

  /** The step reports an index. */
  predicate Reports(h: Helper, step: Step) {
    exists k :: 0 <= k < |Writes(h, step)| && Writes(h, step)[k].IndexReport?
  }

  /** Accepted above what was reported last. */
  predicate IsBehind(p: Port) {
    p.tally.highestIndex.Some? && p.tally.highestIndex != p.reportedIndex
  }

  /**
   * A tick of a confirmed session that does not give the sender up reports the highest index accepted,
   * exactly when it was not the last reported and that was a second ago or more. After it, either the
   * highest index is the last reported, or a report was made within that second.
   */
  lemma ReportedOnceASecond(h: Helper, now: int, authLossMs: nat, x: nat)
    requires h.tick.Looked? && (h.port.confirmed || h.tick.look.authenticated > 0)
    requires !IsLost(h.port, h.tick.look, now, authLossMs)
    ensures var step := TickDecides(now, authLossMs);
            var q := After(h, step).port;
            && (IndexReport(x) in Writes(h, step) <==>
                  IsBehind(h.port) && now - h.port.indexReportedMs >= 1000 && h.port.tally.highestIndex == Some(x))
            && (IsBehind(q) ==> now - q.indexReportedMs < 1000)
  {
  }

  /** What was reported last, and when: by the tick that reported it. */
  lemma ReportStep(h: Helper, step: Step)
    ensures var p, q := h.port, After(h, step).port;
            if Reports(h, step) && step.TickDecides?
            then q.reportedIndex == p.tally.highestIndex && q.indexReportedMs == step.now
            else q.reportedIndex == p.reportedIndex && q.indexReportedMs == p.indexReportedMs
  {
    match step
    case KeyRequested(_) =>
    case Authenticated(sn, at) => PortLaws.RecordLeaves(h.port, sn, at);
    case TickLooks =>
    case TickDecides(now, _) => DecisionReports(h, step);
    case TickSwitches(_) =>
    case KeyRemoved =>
    case FloorMoves =>
    case SearchRestarts =>
    case KeyForgotten =>
    case StartRead =>
    case TornDown =>
    case StopRead =>
    case FlushEnded =>
    case PipelineFailed =>
    case SignalReceived =>
  }

  lemma DecisionReports(h: Helper, step: Step)
    requires step.TickDecides?
    ensures var p, q := h.port, After(h, step).port;
            if Reports(h, step)
            then && q.reportedIndex == p.tally.highestIndex && q.indexReportedMs == step.now
                 && p.tally.highestIndex.Some? && IndexReport(p.tally.highestIndex.value) in Writes(h, step)
                 && p.tally.highestIndex != p.reportedIndex && step.now - p.indexReportedMs >= 1000
            else q.reportedIndex == p.reportedIndex && q.indexReportedMs == p.indexReportedMs
  {
    var frames := Writes(h, step);
    if h.tick.Looked? && !IsLost(h.port, h.tick.look, step.now, step.authLossMs)
       && (h.tick.look.authenticated > 0 || h.port.confirmed) {
      var q := h.port.(confirmed := true);
      var r := ReportIndex(q, false, step.now);
      if r.1 != [] {
        assert frames[|frames| - 1] == r.1[0];
        assert IndexReport(h.port.tally.highestIndex.value) in frames;
      }
    }
  }

  /** A helper that a pipeline error ends while it searches reports what it has not yet, whenever the last report was. */
  lemma ReportedOnTheWayOut(p: Port, x: nat)
    requires p.mode.SearchingMode?
    ensures PipelineError(p).2
    ensures IndexReport(x) in PipelineError(p).1 <==> IsBehind(p) && p.tally.highestIndex == Some(x)
  {
  }

  predicate ReportsNothing(h: Helper, step: Step) {
    !(Reports(h, step) && step.TickDecides?)
  }

  /** What was reported last, and when. */
  predicate LastReport(h: Helper, index: Option<nat>, at: int) {
    h.port.reportedIndex == index && h.port.indexReportedMs == at
  }

  lemma LastReportStands(h: Helper, steps: seq<Step>, i: nat, n: nat, index: Option<nat>, at: int)
    requires i <= n <= |steps| && LastReport(Before(h, steps, i), index, at)
    requires forall m :: i <= m < n ==> ReportsNothing(Before(h, steps, m), steps[m])
    ensures LastReport(Before(h, steps, n), index, at)
  {
    var inv := t => LastReport(t, index, at);
    forall t, l | inv(t) && ReportsNothing(t, l)
      ensures inv(After(t, l))
    {
      ReportStep(t, l);
    }
    Keeps(After, inv, ReportsNothing, h, steps, i, n);
  }

  /** In every run: the next report a tick makes is of a higher index, and a second later or more. */
  lemma ReportsRiseAndAreSpaced(h: Helper, steps: seq<Step>, i: nat, n: nat)
    requires i < n < |steps| && steps[i].TickDecides? && steps[n].TickDecides?
    requires Reports(Before(h, steps, i), steps[i]) && Reports(Before(h, steps, n), steps[n])
    requires forall m :: i < m < n ==> ReportsNothing(Before(h, steps, m), steps[m])
    ensures steps[n].now - steps[i].now >= 1000
    ensures var was, now := Before(h, steps, i).port.tally.highestIndex, Before(h, steps, n).port.tally.highestIndex;
            was.Some? && now.Some? && was.value < now.value && IndexReport(now.value) in WritesAt(h, steps, n)
  {
    var a, b := Before(h, steps, i), Before(h, steps, n);
    DecisionReports(a, steps[i]);
    RunStep(After, h, steps, i);
    LastReportStands(h, steps, i + 1, n, a.port.tally.highestIndex, steps[i].now);
    DecisionReports(b, steps[n]);
    MemoryStays(h, steps, i, n, a.port.tally.highestIndex.value);
  }

  // ---------------------------------------------------------------- counting what is accepted

  function AuthenticatedOf(h: Helper): nat {
    h.port.tally.authenticated
  }

  lemma CountedStep(h: Helper, step: Step)
    ensures AuthenticatedOf(After(h, step)) == if AcceptsAt(h, step) then PlusOne(AuthenticatedOf(h)) else AuthenticatedOf(h)
  {
    match step
    case KeyRequested(_) =>
    case Authenticated(_, _) =>
    case TickLooks =>
    case TickDecides(_, _) =>
    case TickSwitches(_) =>
    case KeyRemoved =>
    case FloorMoves =>
    case SearchRestarts =>
    case KeyForgotten =>
    case StartRead =>
    case TornDown =>
    case StopRead =>
    case FlushEnded =>
    case PipelineFailed =>
    case SignalReceived =>
  }

  /** The running total a helper's statistics show is the number of packets accepted, over all its sessions. */
  lemma AuthenticatedIsTheCount(h: Helper, steps: seq<Step>, n: nat)
    requires h.port.tally.authenticated == 0 && n <= |steps|
    ensures Before(h, steps, n).port.tally.authenticated == Count(After, AcceptsAt, h, steps[..n])
  {
    forall t, l | AnyStep(t, l)
      ensures AuthenticatedOf(After(t, l)) == if AcceptsAt(t, l) then PlusOne(AuthenticatedOf(t)) else AuthenticatedOf(t)
    {
      CountedStep(t, l);
    }
    Iterates(After, AcceptsAt, AuthenticatedOf, PlusOne, AnyStep, h, steps, n);
    PlusOneCounts(Count(After, AcceptsAt, h, steps[..n]));
  }

  /** An authenticated packet with an index is refused: it is not above the floor. */
  predicate IsStale(h: Helper, step: Step) {
    step.Authenticated? && step.sn.Some? && Next(h, step).1.Refused?
  }

  predicate IsForeign(h: Helper, step: Step) {
    step.KeyRequested? && step.ssrc != h.port.ssrc
  }

  function StaleOf(h: Helper): nat {
    h.port.tally.stale
  }

  function ForeignOf(h: Helper): nat {
    h.port.tally.foreignSsrc
  }

  lemma RefusedStep(h: Helper, step: Step)
    ensures StaleOf(After(h, step)) == if IsStale(h, step) then PlusOne(StaleOf(h)) else StaleOf(h)
    ensures ForeignOf(After(h, step)) == if IsForeign(h, step) then PlusOne(ForeignOf(h)) else ForeignOf(h)
  {
    match step
    case KeyRequested(_) =>
    case Authenticated(_, _) =>
    case TickLooks =>
    case TickDecides(_, _) =>
    case TickSwitches(_) =>
    case KeyRemoved =>
    case FloorMoves =>
    case SearchRestarts =>
    case KeyForgotten =>
    case StartRead =>
    case TornDown =>
    case StopRead =>
    case FlushEnded =>
    case PipelineFailed =>
    case SignalReceived =>
  }

  /** And what is turned away is counted by what it was: at or below the floor, or another's datagram. */
  lemma RefusalsAreTheCounts(h: Helper, steps: seq<Step>, n: nat)
    requires h.port.tally.stale == 0 && h.port.tally.foreignSsrc == 0 && n <= |steps|
    ensures Before(h, steps, n).port.tally.stale == Count(After, IsStale, h, steps[..n])
    ensures Before(h, steps, n).port.tally.foreignSsrc == Count(After, IsForeign, h, steps[..n])
  {
    forall t, l | AnyStep(t, l)
      ensures StaleOf(After(t, l)) == if IsStale(t, l) then PlusOne(StaleOf(t)) else StaleOf(t)
      ensures ForeignOf(After(t, l)) == if IsForeign(t, l) then PlusOne(ForeignOf(t)) else ForeignOf(t)
    {
      RefusedStep(t, l);
    }
    Iterates(After, IsStale, StaleOf, PlusOne, AnyStep, h, steps, n);
    Iterates(After, IsForeign, ForeignOf, PlusOne, AnyStep, h, steps, n);
    PlusOneCounts(Count(After, IsStale, h, steps[..n]));
    PlusOneCounts(Count(After, IsForeign, h, steps[..n]));
  }

  function CreditOf(h: Helper): nat {
    h.port.tally.keyAuthenticated
  }

  predicate LeavesKey(h: Helper, step: Step) {
    WithinSession(h, step) && HandsNothingOut(h, step)
  }

  lemma CreditedStep(h: Helper, step: Step)
    requires LeavesKey(h, step)
    ensures CreditOf(After(h, step)) == if AcceptsAt(h, step) then PlusOne(CreditOf(h)) else CreditOf(h)
  {
    match step
    case KeyRequested(_) =>
    case Authenticated(_, _) =>
    case TickLooks =>
    case TickDecides(_, _) =>
    case TickSwitches(_) =>
    case KeyRemoved =>
    case FloorMoves =>
    case SearchRestarts =>
    case KeyForgotten =>
    case StartRead =>
    case TornDown =>
    case StopRead =>
    case FlushEnded =>
    case PipelineFailed =>
    case SignalReceived =>
  }

  /** A key's credit is the number of packets accepted under it, from its hand-out on. */
  lemma CreditIsTheCount(h: Helper, steps: seq<Step>, n: nat)
    requires CreditOf(h) == 0 && n <= |steps|
    requires forall m :: 0 <= m < n ==> LeavesKey(Before(h, steps, m), steps[m])
    ensures CreditOf(Before(h, steps, n)) == Count(After, AcceptsAt, h, steps[..n])
  {
    forall t, l | LeavesKey(t, l)
      ensures CreditOf(After(t, l)) == if AcceptsAt(t, l) then PlusOne(CreditOf(t)) else CreditOf(t)
    {
      CreditedStep(t, l);
    }
    Iterates(After, AcceptsAt, CreditOf, PlusOne, LeavesKey, h, steps, n);
    PlusOneCounts(Count(After, AcceptsAt, h, steps[..n]));
  }

  // ---------------------------------------------------------------- the last word on production

  lemma StoppedSaysHighest(h: Helper, step: Step, last: Option<nat>)
    requires Stopped(last) in Writes(h, step)
    ensures last == h.port.tally.highestIndex
  {
  }

  /**
   * In every run of a helper: a `stopped` - in answer to a stop, when the flush ends, for a pipeline
   * error or for a sender given up - carries the highest index accepted until then, over all sessions,
   * or none if nothing was.
   */
  lemma StoppedCarriesTheMaximum(h: Helper, steps: seq<Step>, n: nat, last: Option<nat>) returns (i: nat)
    requires h.port.tally.highestIndex.None? && n < |steps| && Stopped(last) in WritesAt(h, steps, n)
    ensures last.None? ==> NoneAccepted(h, steps, n)
    ensures last.Some? ==> i < n && EventAt(h, steps, i).AcceptedUnder? && EventAt(h, steps, i).index == last.value
    ensures forall k :: 0 <= k < n && EventAt(h, steps, k).AcceptedUnder? ==>
              last.Some? && EventAt(h, steps, k).index <= last.value
  {
    StoppedSaysHighest(Before(h, steps, n), steps[n], last);
    assert steps[..0] == [];
    i := 0;
    if last.Some? {
      i := SessionOverlap.HighestWasAccepted(h, steps, n);
    }
    forall k | 0 <= k < n && EventAt(h, steps, k).AcceptedUnder?
      ensures last.Some? && EventAt(h, steps, k).index <= last.value
    {
      AcceptanceIsRemembered(h, steps, k, n);
    }
    forall m | 0 <= m < n && last.None?
      ensures AcceptsNothing(Before(h, steps, m), steps[m])
    {
      assert !EventAt(h, steps, m).AcceptedUnder?;
    }
  }

  /** What a step says of production's end: that it has, once the step has taken the pipeline down. */
  predicate SaysStopped(h: Helper, step: Step) {
    exists k :: 0 <= k < |Writes(h, step)| && Writes(h, step)[k].Stopped?
  }

  /**
   * Production ends exactly where a `stopped` says so: a step that takes a producing port back to
   * searching says it, one that leaves it producing never does, and nothing takes a port there from
   * searching but a start, which says so too.
   */
  lemma EndOfProductionIsSaid(h: Helper, step: Step)
    requires h.port.mode.ProducingMode?
    ensures After(h, step).port.mode.SearchingMode? <==> SaysStopped(h, step)
    ensures SaysStopped(h, step) && AuthLost in Writes(h, step) ==> Writes(h, step)[0].Stopped?
  {
    match step
    case KeyRequested(_) =>
    case Authenticated(sn, at) => PortLaws.RecordLeaves(h.port, sn, at);
    case TickLooks =>
    case TickDecides(_, _) => DecisionEndsProduction(h, step);
    case TickSwitches(_) =>
    case KeyRemoved =>
    case FloorMoves =>
    case SearchRestarts =>
    case KeyForgotten =>
    case StartRead =>
    case TornDown =>
    case StopRead =>
    case FlushEnded => if h.tick.AtRest? && h.port.stopping { assert Writes(h, step)[0].Stopped?; }
    case PipelineFailed => if h.tick.AtRest? { assert Writes(h, step)[1].Stopped?; }
    case SignalReceived =>
  }

  lemma DecisionEndsProduction(h: Helper, step: Step)
    requires h.port.mode.ProducingMode? && step.TickDecides?
    ensures After(h, step).port.mode.SearchingMode? <==> SaysStopped(h, step)
    ensures SaysStopped(h, step) && AuthLost in Writes(h, step) ==> Writes(h, step)[0].Stopped?
  {
    if h.tick.Looked? && IsLost(h.port, h.tick.look, step.now, step.authLossMs) {
      assert Writes(h, step)[0].Stopped?;
    }
  }

  /** Told to stop, and neither stopping nor shutting down already. */
  predicate HearsStop(h: Helper, step: Step) {
    step.StopRead? && h.tick.AtRest? && !h.port.stopping && !h.port.shuttingDown
  }

  /** A stop is answered once: at once by a port that does not produce, by one that does when its flush ends. */
  lemma StopIsAnswered(h: Helper, steps: seq<Step>, i: nat, n: nat)
    requires i < n < |steps| && HearsStop(Before(h, steps, i), steps[i])
    requires AllStream(steps, i + 1, n) && steps[n].FlushEnded?
    ensures var producing := Before(h, steps, i).port.mode.ProducingMode?;
            && (SaysStopped(Before(h, steps, i), steps[i]) <==> !producing)
            && (SaysStopped(Before(h, steps, n), steps[n]) <==> producing)
            && Before(h, steps, n + 1).port.mode.SearchingMode? && !Before(h, steps, n + 1).port.stopping
  {
    var before := Before(h, steps, i);
    StopStep(before);
    RunStep(After, h, steps, i);
    StopStands(h, steps, i, n);
    FlushStep(Before(h, steps, n));
    RunStep(After, h, steps, n);
  }

  lemma StopStep(h: Helper)
    requires HearsStop(h, StopRead)
    ensures After(h, StopRead).tick.AtRest? && After(h, StopRead).port.mode == h.port.mode
    ensures After(h, StopRead).port.stopping <==> h.port.mode.ProducingMode?
    ensures SaysStopped(h, StopRead) <==> h.port.mode.SearchingMode?
  {
    if h.port.mode.SearchingMode? {
      assert Writes(h, StopRead)[0].Stopped?;
    }
  }

  lemma FlushStep(h: Helper)
    requires h.tick.AtRest? && (h.port.stopping <==> h.port.mode.ProducingMode?)
    ensures SaysStopped(h, FlushEnded) <==> h.port.stopping
    ensures After(h, FlushEnded).port.mode.SearchingMode? && !After(h, FlushEnded).port.stopping
  {
    if h.port.stopping {
      assert Writes(h, FlushEnded)[0].Stopped?;
    }
  }

  lemma StopStands(h: Helper, steps: seq<Step>, i: nat, n: nat)
    requires i < n <= |steps| && AllStream(steps, i + 1, n)
    ensures var a, b := Before(h, steps, i + 1), Before(h, steps, n);
            b.tick == a.tick && b.port.mode == a.port.mode && b.port.stopping == a.port.stopping
  {
    var a := Before(h, steps, i + 1);
    var inv := (t: Helper) => t.tick == a.tick && t.port.mode == a.port.mode && t.port.stopping == a.port.stopping;
    forall t, l | inv(t) && OnlyStreams(t, l)
      ensures inv(After(t, l))
    {
      if l.Authenticated? {
        PortLaws.RecordLeaves(t.port, l.sn, l.at);
      }
    }
    Keeps(After, inv, OnlyStreams, h, steps, i + 1, n);
  }

  predicate IsLeaving(h: Helper) {
    h.port.shuttingDown && h.tick.AtRest?
  }

  lemma LeavingStep(h: Helper, step: Step)
    requires IsLeaving(h)
    ensures IsLeaving(After(h, step))
    ensures var event := Next(h, step).1;
            !event.SearchAdvanced? && !event.Confirmed? && !event.LossRead?
    ensures After(h, step).port.mode.ProducingMode? ==> h.port.mode.ProducingMode?
  {
    match step
    case KeyRequested(_) =>
    case Authenticated(sn, at) => PortLaws.RecordLeaves(h.port, sn, at);
    case TickLooks =>
    case TickDecides(_, _) =>
    case TickSwitches(_) =>
    case KeyRemoved =>
    case FloorMoves =>
    case SearchRestarts =>
    case KeyForgotten =>
    case StartRead =>
    case TornDown =>
    case StopRead =>
    case FlushEnded =>
    case PipelineFailed =>
    case SignalReceived =>
  }

  /** From a signal on, a helper only finishes: it steps no search, confirms and loses nothing, and starts no production. */
  lemma SignalEndsTheWork(h: Helper, steps: seq<Step>, i: nat, n: nat)
    requires i < n < |steps| && steps[i].SignalReceived? && Before(h, steps, i).tick.AtRest?
    ensures var event := EventAt(h, steps, n);
            !event.SearchAdvanced? && !event.Confirmed? && !event.LossRead?
    ensures Before(h, steps, n + 1).port.mode.ProducingMode? ==> Before(h, steps, n).port.mode.ProducingMode?
  {
    RunStep(After, h, steps, i);
    forall t, l | IsLeaving(t) && AnyStep(t, l)
      ensures IsLeaving(After(t, l))
    {
      LeavingStep(t, l);
    }
    Keeps(After, IsLeaving, AnyStep, h, steps, i + 1, n);
    LeavingStep(Before(h, steps, n), steps[n]);
    RunStep(After, h, steps, n);
  }
}
