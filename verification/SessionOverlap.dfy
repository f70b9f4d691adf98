/**
 * A searching helper resets its session with its pipeline up. When packets it accepts
 * meanwhile can be undercut later, and exactly when nothing can be, at the indexes it computes.
 */
module SessionOverlap {
  import opened Wrappers
  import opened PacketIndex
  import opened PortSpec
  import opened PortLaws
  import opened HelperRuns
  import opened HelperSessions
  import opened Runs

  /** Step `j` of a continuation after step `e` accepts nothing higher than step `i` did before. */
  predicate Undercuts(h: Helper, steps: seq<Step>, e: nat, more: seq<Step>, i: nat, j: nat)
    requires e < |steps|
  {
    && i <= e && EventAt(h, steps, i).AcceptedUnder?
    && j < |more| && EventAt(Before(h, steps, e + 1), more, j).AcceptedUnder?
    && EventAt(Before(h, steps, e + 1), more, j).index <= EventAt(h, steps, i).index
  }

  /** However the run goes on after step `e`, it accepts nothing at or below what it accepted before. */
  ghost predicate Separates(h: Helper, steps: seq<Step>, e: nat)
    requires e < |steps|
  {
    forall more: seq<Step>, i: nat, j: nat :: !Undercuts(h, steps, e, more, i, j)
  }

  lemma HighestStep(h: Helper, step: Step)
    ensures After(h, step).port.tally.highestIndex ==
            if Next(h, step).1.AcceptedUnder? then Some(Max(h.port.tally.highestIndex, Next(h, step).1.index))
            else h.port.tally.highestIndex
  {
    if !step.Authenticated? {
      OnlyPacketsAreAccepted(h, step);
    }
  }

  lemma HighestAtStep(h: Helper, steps: seq<Step>, n: nat)
    requires n < |steps|
    ensures var was, now := Before(h, steps, n).port.tally.highestIndex, Before(h, steps, n + 1).port.tally.highestIndex;
            now == was || (EventAt(h, steps, n).AcceptedUnder? && now == Some(EventAt(h, steps, n).index))
  {
    RunStep(After, h, steps, n);
    HighestStep(Before(h, steps, n), steps[n]);
  }

  /** The maximum held is one that was accepted. */
  lemma {:induction false} HighestWasAccepted(h: Helper, steps: seq<Step>, n: nat) returns (i: nat)
    requires 0 < n <= |steps| && h.port.tally.highestIndex.None?
    requires Before(h, steps, n).port.tally.highestIndex.Some?
    ensures i < n && EventAt(h, steps, i).AcceptedUnder?
    ensures Before(h, steps, n).port.tally.highestIndex == Some(EventAt(h, steps, i).index)
    decreases n
  {
    HighestAtStep(h, steps, n - 1);
    assert steps[..0] == [];
    if Before(h, steps, n - 1).port.tally.highestIndex == Before(h, steps, n).port.tally.highestIndex {
      i := HighestWasAccepted(h, steps, n - 1);
    } else {
      i := n - 1;
    }
  }

  // ---------------------------------------------------------------- a run that undercuts

  /** The step is a packet, and the helper accepts it at index `x`. */
  predicate Accepts(h: Helper, step: Step, x: nat) {
    && step.Authenticated? && step.sn.Some? && h.keyed
    && ComputedIndex(h.port.tally, step.sn.value) == x && AboveFloor(h.port.floor, x)
  }

  lemma AcceptsIsEvent(h: Helper, step: Step, x: nat)
    ensures Accepts(h, step, x) <==> Next(h, step).1.AcceptedUnder? && Next(h, step).1.index == x
  {
    if !step.Authenticated? {
      OnlyPacketsAreAccepted(h, step);
    }
  }

  /** The run's last step accepts a packet at index `x`. */
  predicate EndsWith(h: Helper, more: seq<Step>, x: nat) {
    more != [] && Accepts(Before(h, more, |more| - 1), more[|more| - 1], x)
  }

  lemma EndsAfterFirst(h: Helper, l: Step, more: seq<Step>, x: nat)
    requires EndsWith(After(h, l), more, x)
    ensures EndsWith(h, [l] + more, x)
  {
    var last := |more| - 1;
    assert ([l] + more)[..last + 1] == [l] + more[..last];
    RunAppend(After, h, [l], more[..last]);
    assert [l][..0] == [];
  }

  lemma EndsAtOnce(h: Helper, l: Step, x: nat)
    requires Accepts(h, l, x)
    ensures EndsWith(h, [l], x)
  {
    assert [l][..0] == [];
  }

  /** The tracker of a keyed helper stands on `t`. */
  predicate StandsOn(h: Helper, t: nat) {
    h.keyed && h.port.tally.roc == Roc(t) && h.port.tally.highestSeq == Some(Seq(t))
  }

  function Packet(x: nat): Step {
    Authenticated(Some(Seq(x)), 0)
  }

  /** A packet less than half the sequence space ahead is accepted, or moves the tracker to itself. */
  lemma PacketAhead(h: Helper, t: nat, x: nat)
    requires StandsOn(h, t) && t < x < t + 0x8000 && x <= INDEX_MAX
    ensures if AboveFloor(h.port.floor, x) then Accepts(h, Packet(x), x)
            else StandsOn(After(h, Packet(x)), x) && After(h, Packet(x)).port.floor == h.port.floor
  {
    EstimateRoundTrip(t, x);
  }

  /** Packet after packet, a stream below the floor comes up to just above it and is accepted there. */
  lemma {:induction false} ClimbToFloor(h: Helper, t: nat, x: nat) returns (more: seq<Step>)
    requires StandsOn(h, t) && t < x <= INDEX_MAX && h.port.floor == Some(x - 1)
    ensures EndsWith(h, more, x)
    decreases x - t
  {
    if x < t + 0x8000 {
      PacketAhead(h, t, x);
      more := [Packet(x)];
      EndsAtOnce(h, Packet(x), x);
    } else {
      var y := t + 0x7FFF;
      PacketAhead(h, t, y);
      var rest := ClimbToFloor(After(h, Packet(y)), y, x);
      more := [Packet(y)] + rest;
      EndsAfterFirst(h, Packet(y), rest, x);
    }
  }

  /** The first packet after a key hand-out has the counter handed out. */
  lemma FirstPacket(h: Helper, c: nat)
    requires h.keyed && h.port.tally.roc == c <= ROC_MAX && h.port.tally.highestSeq.None?
    ensures if AboveFloor(h.port.floor, Index(c, 0)) then Accepts(h, Packet(Index(c, 0)), Index(c, 0))
            else StandsOn(After(h, Packet(Index(c, 0))), Index(c, 0))
                 && After(h, Packet(Index(c, 0))).port.floor == h.port.floor
  {
    IndexParts(c, 0);
    EstimateRoundTrip(Index(c, 0), Index(c, 0));
  }

  /** From a helper keyed with counter `c`, a run that accepts something no higher than `x`. */
  lemma Undercut(h: Helper, c: nat, x: nat) returns (more: seq<Step>, y: nat)
    requires h.keyed && h.port.tally.roc == c <= ROC_MAX && h.port.tally.highestSeq.None?
    requires AboveFloor(h.port.floor, x) && c <= Roc(x) && x <= INDEX_MAX
    ensures EndsWith(h, more, y) && y <= x
  {
    y := Index(c, 0);
    var first := Packet(y);
    FirstPacket(h, c);
    if AboveFloor(h.port.floor, y) {
      more := [first];
      EndsAtOnce(h, first, y);
    } else {
      var rest := ClimbToFloor(After(h, first), y, h.port.floor.value + 1);
      y := h.port.floor.value + 1;
      more := [first] + rest;
      EndsAfterFirst(h, first, rest, y);
    }
  }

  /** After a loss whose session is not sealed, the authenticator asks for a key and undercuts it. */
  lemma UnsealedIsUndercut(h: Helper, sent: Option<nat>) returns (more: seq<Step>)
    requires SaneHelper(h, sent) && CandidateLow(h.port) && h.port.tally.keyCandidate.None? && !Sealed(h)
    ensures more != [] && EventAt(h, more, |more| - 1).AcceptedUnder?
    ensures EventAt(h, more, |more| - 1).index <= h.port.tally.highestIndex.value
  {
    var ask := KeyRequested(h.port.ssrc);
    if h.port.floor.Some? {
      RocMonotone(h.port.floor.value, h.port.tally.highestIndex.value);
    }
    AskedHandsOut(h);
    var rest, y := Undercut(After(h, ask), h.port.candidate, h.port.tally.highestIndex.value);
    more := [ask] + rest;
    EndsAfterFirst(h, ask, rest, y);
    AcceptsIsEvent(Before(h, more, |more| - 1), more[|more| - 1], y);
  }

  lemma AskedHandsOut(h: Helper)
    requires h.port.tally.keyCandidate.None?
    ensures var asked := After(h, KeyRequested(h.port.ssrc));
            && asked.keyed && asked.port.tally.roc == h.port.candidate && asked.port.tally.highestSeq.None?
            && asked.port.floor == h.port.floor
  {
  }

  /**
   * A searching loss separates its sessions - whatever the helper does afterwards, everything
   * it accepts lies above everything it accepted before - if and only if its session is
   * sealed, which is if and only if its reset was quiet.
   */
  lemma SearchingLossSeparatesIffQuiet(
      ssrc: nat, floor: Option<nat>, from: Option<int>, every: int, steps: seq<Step>, b: nat, e: nat)
    requires IsReset(Rebuilt(Started(ssrc, floor, from, every)), steps, b, e)
    ensures var h := Rebuilt(Started(ssrc, floor, from, every));
            Separates(h, steps, e) <==> IsQuiet(h, steps, b, e)
  {
    var h := Rebuilt(Started(ssrc, floor, from, every));
    SealedIffQuiet(h, steps, b, e);
    if Sealed(Before(h, steps, e + 1)) {
      SealedSeparates(h, steps, e);
    } else {
      UnsealedDoesNotSeparate(ssrc, floor, from, every, steps, e);
    }
  }

  lemma SealedSeparates(h: Helper, steps: seq<Step>, e: nat)
    requires e < |steps| && Sealed(Before(h, steps, e + 1))
    ensures Separates(h, steps, e)
  {
    var after := Before(h, steps, e + 1);
    forall more: seq<Step>, i: nat, j: nat
      ensures !Undercuts(h, steps, e, more, i, j)
    {
      if Undercuts(h, steps, e, more, i, j) {
        AcceptanceIsRemembered(h, steps, i, e + 1);
        SealedIsAbove(after, more, j);
        assert false;
      }
    }
  }

  lemma SealedIsAbove(h: Helper, more: seq<Step>, j: nat)
    requires Sealed(h) && h.port.tally.highestIndex.Some?
    requires j < |more| && EventAt(h, more, j).AcceptedUnder?
    ensures h.port.tally.highestIndex.value < EventAt(h, more, j).index
  {
    assert more[..0] == [];
    AcceptanceIsAboveFloor(h, more, 0, j, h.port.tally.highestIndex.value);
  }

  lemma UnsealedDoesNotSeparate(
      ssrc: nat, floor: Option<nat>, from: Option<int>, every: int, steps: seq<Step>, e: nat)
    requires e < |steps|
    requires var h := Rebuilt(Started(ssrc, floor, from, every));
             && Before(h, steps, e).tick.Forgetting? && steps[e].KeyForgotten? && !Sealed(Before(h, steps, e + 1))
    ensures !Separates(Rebuilt(Started(ssrc, floor, from, every)), steps, e)
  {
    var h := Rebuilt(Started(ssrc, floor, from, every));
    AlwaysSane(ssrc, floor, from, every, steps, e);
    AlwaysSane(ssrc, floor, from, every, steps, e + 1);
    LastSection(h, steps, e);
    var after := Before(h, steps, e + 1);
    var more := UnsealedIsUndercut(after, SentFloor(floor));
    var i := HighestWasAccepted(h, steps, e + 1);
    assert Undercuts(h, steps, e, more, i, |more| - 1);
  }

  // ---------------------------------------------------------------- a loud reset

  /** A stream at counter 0, lost and back again in the middle of the reset. */
  function LoudRun(): seq<Step> {
    [KeyRequested(7), Authenticated(Some(100), 1), TickLooks, TickDecides(2, 1000), TickLooks, TickDecides(5000, 1000),
     Authenticated(Some(105), 5000), FloorMoves, SearchRestarts, KeyForgotten]
  }

  lemma LoudRunBefore(h: Helper, n: nat)
    requires h == Rebuilt(Started(7, None, None, 512)) && n <= 6
    ensures var b := Before(h, LoudRun(), n);
            && b.port.floor.None? && b.port.mode.SearchingMode? && !b.port.shuttingDown
            && (n >= 1 ==> b.keyed && b.port.tally.roc == 0)
            && (n == 1 ==> b.port.tally.highestSeq.None?)
            && (n >= 2 ==> b.port.tally.highestIndex == Some(100) && b.port.tally.highestSeq == Some(100)
                           && b.port.tally.lastAuthMs == 1 && b.port.tally.keyAuthenticated == 1)
            && (n in {0, 1, 2, 4} ==> b.tick.AtRest?) && (n in {3, 5} ==> b.tick.Looked? && b.tick.look.lastAuthMs == 1)
            && (n == 3 ==> b.tick.look.authenticated == 1)
            && (n in {4, 5} ==> b.port.confirmed)
            && (n == 6 ==> b.tick == Losing(Some(100)))
    decreases n
  {
    assert LoudRun()[..0] == [];
    if n == 0 {
    } else {
      LoudRunBefore(h, n - 1);
      RunStep(After, h, LoudRun(), n - 1);
    }
  }

  /** 105 is accepted with the maximum already read. */
  lemma LoudPacket(h: Helper)
    requires h == Rebuilt(Started(7, None, None, 512))
    ensures EventAt(h, LoudRun(), 6).AcceptedUnder? && EventAt(h, LoudRun(), 6).index == 105
    ensures var b := Before(h, LoudRun(), 7);
            b.keyed && b.port.floor.None? && b.port.tally.roc == 0 && b.tick == Losing(Some(100))
  {
    LoudRunBefore(h, 6);
    RunStep(After, h, LoudRun(), 6);
  }

  lemma LoudRunAfter(h: Helper)
    requires h == Rebuilt(Started(7, None, None, 512))
    ensures var after := Before(h, LoudRun(), 10);
            && after.keyed && after.port.floor == Some(100)
            && after.port.tally.roc == 0 && after.port.tally.highestSeq.None?
  {
    var steps := LoudRun();
    LoudPacket(h);
    RunStep(After, h, steps, 7);
    RunStep(After, h, steps, 8);
    RunStep(After, h, steps, 9);
  }

  /**
   * The reset reads 100; 105 is accepted before it ends; the next session, on the same
   * pipeline, then accepts 103.
   */
  lemma AcceptedInsideTheReset()
    ensures var h := Rebuilt(Started(7, None, None, 512));
            Undercuts(h, LoudRun(), 9, [Authenticated(Some(103), 5001)], 6, 0)
  {
    var h := Rebuilt(Started(7, None, None, 512));
    LoudPacket(h);
    LoudRunAfter(h);
    assert [Authenticated(Some(103), 5001)][..0] == [];
  }
}
