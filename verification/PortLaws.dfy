/** What a helper's state keeps, whatever its two threads do and in whatever order. */
module PortLaws {
  import opened Wrappers
  import opened PacketIndex
  import opened PortSpec
  import RolloverSearch

  /** A search whose far climb has somewhere to stand: on a counter above the base, if there is one. */
  predicate Climbable(s: RolloverSearch.State) {
    s.base <= ROC_MAX && s.base < s.far && (s.far <= ROC_MAX || s.far == s.base + 1) && s.farStart <= ROC_MAX + 1
  }

  /** The kept position is, for a search from the same base, where the far climb stands. */
  predicate Resumable(carried: Option<int>, every: int, s: RolloverSearch.State) {
    Climbable(s) && RolloverSearch.Start(s.base, carried, every).farStart == s.far
  }

  /** Accepted by now, or not to be accepted any more. */
  predicate IsReached(p: Port, index: nat) {
    !AboveFloor(p.floor, index) || (p.tally.highestIndex.Some? && index <= p.tally.highestIndex.value)
  }

  /** Counters are 32 bits, sequence numbers 16, indexes 48. */
  predicate InRange(p: Port) {
    && p.tally.roc <= ROC_MAX && p.candidate <= ROC_MAX
    && (p.tally.highestSeq.Some? ==> p.tally.highestSeq.value < SEQ_MODULO)
    && (p.tally.highestIndex.Some? ==> p.tally.highestIndex.value <= INDEX_MAX)
    && (p.floor.Some? ==> p.floor.value <= INDEX_MAX)
  }

  /** The floor is the one the helper was sent, or one it has since earned by accepting. */
  predicate FloorEarned(p: Port, sent: Option<nat>) {
    && (p.floor.Some? ==>
          p.floor == sent || (p.tally.highestIndex.Some? && p.floor.value <= p.tally.highestIndex.value))
    && (sent.Some? ==> p.floor.Some? && sent.value <= p.floor.value)
  }

  /**
   * The tracker stands on no index that is still to be accepted, and never below the counter last
   * handed out; a key with credit has accepted something at or above its counter; and nothing is
   * reported that was not accepted. Indexes here are the computed ones.
   */
  predicate TrackerBacked(p: Port) {
    var c := p.tally;
    && (c.highestSeq.Some? ==> IsReached(p, Index(c.roc, c.highestSeq.value)))
    && (c.keyCandidate.Some? ==> c.keyCandidate.value <= c.roc)
    && (c.keyCandidate.Some? && c.keyAuthenticated > 0 ==>
          c.highestIndex.Some? && c.keyCandidate.value <= Roc(c.highestIndex.value))
    && (p.reportedIndex.Some? ==> c.highestIndex.Some? && p.reportedIndex.value <= c.highestIndex.value)
  }

  predicate Sane(p: Port, sent: Option<nat>) {
    InRange(p) && FloorEarned(p, sent) && TrackerBacked(p) && Resumable(p.carried, p.floorEvery, p.search)
  }

  // ---------------------------------------------------------------- the streaming thread

  lemma TrackingStaysInRange(c: Tally, sn: nat)
    requires c.roc <= ROC_MAX && (c.highestSeq.Some? ==> c.highestSeq.value < SEQ_MODULO) && sn < SEQ_MODULO
    ensures ComputedIndex(c, sn) <= INDEX_MAX
    ensures var d := Track(c, sn);
            && d.roc <= ROC_MAX && d.highestSeq.Some? && d.highestSeq.value < SEQ_MODULO && c.roc <= d.roc
            && (Index(d.roc, d.highestSeq.value) == ComputedIndex(c, sn)
                || (d.roc == c.roc && d.highestSeq == c.highestSeq))
    ensures c.highestSeq.None? ==> ComputedIndex(c, sn) == Index(c.roc, sn)
    ensures c.highestSeq.Some? ==>
              ComputedIndex(c, sn) <= Index(Track(c, sn).roc, Track(c, sn).highestSeq.value)
  {
    var local := LocalIndex(c, sn);
    var index := ComputedIndex(c, sn);
    IndexParts(c.roc, if c.highestSeq.None? then sn else c.highestSeq.value);
    EstimateNeverWrapsBackward(local, sn);
    IndexParts(Roc(index), Seq(index));
    if c.highestSeq.None? {
      EstimateRoundTrip(local, local);
    }
  }

  lemma RocMonotone(a: nat, b: nat)
    requires a <= b
    ensures Roc(a) <= Roc(b)
  {
  }

  /** An accepted packet's maximum is no rollover below the tracker, nor below the key's counter. */
  lemma AcceptedCoversKey(p: Port, sn: nat)
    requires InRange(p) && TrackerBacked(p) && sn < SEQ_MODULO
    requires AboveFloor(p.floor, ComputedIndex(p.tally, sn))
    ensures p.tally.roc <= Roc(Max(p.tally.highestIndex, ComputedIndex(p.tally, sn)))
  {
    var c, index := p.tally, ComputedIndex(p.tally, sn);
    TrackingStaysInRange(c, sn);
    if c.highestSeq.None? {
      IndexParts(c.roc, sn);
      RocMonotone(index, Max(c.highestIndex, index));
    } else {
      var t := Index(c.roc, c.highestSeq.value);
      IndexParts(c.roc, c.highestSeq.value);
      RocMonotone(t, Max(c.highestIndex, index));
    }
  }

  lemma RecordKeepsBacked(p: Port, sn: nat, now: nat)
    requires InRange(p) && TrackerBacked(p) && sn < SEQ_MODULO
    ensures TrackerBacked(RecordAuthenticated(p, Some(sn), now).0)
  {
    var index := ComputedIndex(p.tally, sn);
    TrackingStaysInRange(p.tally, sn);
    if AboveFloor(p.floor, index) {
      AcceptedCoversKey(p, sn);
    }
  }

  lemma RecordKeepsRange(p: Port, sn: nat, now: nat)
    requires InRange(p) && sn < SEQ_MODULO
    ensures InRange(RecordAuthenticated(p, Some(sn), now).0)
  {
    TrackingStaysInRange(p.tally, sn);
  }

  /** Nothing but the counters changes, and the maximum only rises. */
  lemma RecordLeaves(p: Port, sn: Option<nat>, now: nat)
    ensures var q := RecordAuthenticated(p, sn, now).0;
            && q == p.(tally := q.tally)
            && (p.tally.highestIndex.Some? ==>
                  q.tally.highestIndex.Some? && p.tally.highestIndex.value <= q.tally.highestIndex.value)
  {
  }

  lemma RecordKeepsSane(p: Port, sent: Option<nat>, sn: Option<nat>, now: nat)
    requires Sane(p, sent) && (sn.Some? ==> sn.value < SEQ_MODULO)
    ensures Sane(RecordAuthenticated(p, sn, now).0, sent)
  {
    if sn.Some? {
      RecordLeaves(p, sn, now);
      RecordKeepsRange(p, sn.value, now);
      RecordKeepsBacked(p, sn.value, now);
    }
  }

  lemma RequestKeyKeepsRange(p: Port, ssrc: nat)
    requires InRange(p) && TrackerBacked(p)
    ensures InRange(RequestKey(p, ssrc).0)
  {
  }

  lemma RequestKeyKeepsBacked(p: Port, ssrc: nat)
    requires TrackerBacked(p)
    ensures TrackerBacked(RequestKey(p, ssrc).0)
  {
  }

  lemma RequestKeyKeepsSane(p: Port, sent: Option<nat>, ssrc: nat)
    requires Sane(p, sent)
    ensures Sane(RequestKey(p, ssrc).0, sent)
  {
    RequestKeyKeepsRange(p, ssrc);
    RequestKeyKeepsBacked(p, ssrc);
  }

  // ---------------------------------------------------------------- the main loop

  /** A call of the search yields a counter and leaves the far climb at a position worth keeping. */
  lemma CallIsResumable(s: RolloverSearch.State, every: int)
    requires Climbable(s)
    ensures var (next, candidate) := RolloverSearch.Step(s);
            next.base == s.base && Resumable(Some(next.far), every, next) && candidate <= ROC_MAX
  {
  }

  lemma StartIsResumable(base: nat, carried: Option<int>, every: int)
    requires base <= ROC_MAX
    ensures var s := RolloverSearch.Start(base, carried, every);
            && s.base == base && Resumable(carried, every, s)
            && Resumable(carried, every, RolloverSearch.Step(s).0) && RolloverSearch.Step(s).0.farStart == s.farStart
            && RolloverSearch.Step(s).0.base == base && RolloverSearch.Step(s).1 == base
  {
  }

  lemma MoveFloorKeepsSane(p: Port, sent: Option<nat>, highest: Option<nat>)
    requires Sane(p, sent)
    requires highest.Some? ==> p.tally.highestIndex.Some? && highest.value <= p.tally.highestIndex.value
    ensures Sane(MoveFloor(p, highest), sent)
  {
  }

  lemma RestartKeepsSane(p: Port, sent: Option<nat>, seed: Option<nat>)
    requires Sane(p, sent) && (seed.Some? ==> seed.value <= ROC_MAX)
    ensures var next := RestartSearch(p, seed);
            && Sane(next, sent) && next.search.base == FloorRoc(p.floor)
            && (seed.None? ==> next.candidate == FloorRoc(p.floor))
            && (next.search.base == p.search.base ==> next.search.farStart == p.search.far)
  {
    StartIsResumable(FloorRoc(p.floor), p.carried, p.floorEvery);
  }

  lemma EndKeepsSane(p: Port, sent: Option<nat>)
    requires Sane(p, sent)
    ensures Sane(EndSession(p), sent)
  {
  }

  lemma ResetKeepsSane(p: Port, sent: Option<nat>, seed: Option<nat>)
    requires Sane(p, sent) && (seed.Some? ==> seed.value <= ROC_MAX)
    ensures var next := ResetSession(p, seed);
            && Sane(next, sent) && next.search.base == FloorRoc(next.floor)
            && (next.search.base == p.search.base ==> next.search.farStart == p.search.far)
  {
    var moved := MoveFloor(p, p.tally.highestIndex);
    MoveFloorKeepsSane(p, sent, p.tally.highestIndex);
    RestartKeepsSane(moved, sent, seed);
    EndKeepsSane(RestartSearch(moved, seed), sent);
  }

  lemma SwitchKeepsSane(p: Port, sent: Option<nat>)
    requires Sane(p, sent)
    ensures Sane(Switch(p).0, sent) && Switch(p).0.search.base == p.search.base
  {
    CallIsResumable(p.search, p.floorEvery);
  }

  lemma LookKeepsSane(p: Port, sent: Option<nat>)
    requires Sane(p, sent)
    ensures Sane(TickLook(p).0, sent)
  {
  }

  lemma ConfirmKeepsSane(p: Port, sent: Option<nat>, look: Look, now: int)
    requires Sane(p, sent)
    ensures Sane(Confirm(p, look, now).0, sent)
  {
  }

  lemma ReportKeepsSane(p: Port, sent: Option<nat>, force: bool, now: int)
    requires Sane(p, sent)
    ensures Sane(ReportIndex(p, force, now).0, sent)
  {
  }

  /** The floor a helper takes from its init frame: one that is an index. */
  function SentFloor(floor: Option<nat>): Option<nat> {
    if floor.Some? && floor.value <= INDEX_MAX then floor else None
  }

  /** A helper starts sane on the floor it was sent. */
  lemma StartedIsSane(ssrc: nat, floor: Option<nat>, from: Option<int>, every: int)
    ensures var p := Started(ssrc, floor, from, every);
            Sane(p, SentFloor(floor)) && p.search.base == FloorRoc(p.floor) && p.floor == SentFloor(floor)
  {
    StartIsResumable(FloorRoc(SentFloor(floor)), from, every);
  }
}
