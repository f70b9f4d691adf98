/**
 * Exactly when the floor holds at the packets' own indexes: runs of helper and authenticator
 * that take a packet from below it, or one taken already, and when there are none.
 */
module OracleReplays {
  import opened Wrappers
  import opened PacketIndex
  import opened PortSpec
  import opened HelperRuns
  import opened HelperSessions
  import opened OracleRuns
  import opened Runs
  import PortLaws
  import Tracking

  /** A run whose last move takes the packet with this index, and in which no place is found too high. */
  predicate EndsTaking(w: World, more: seq<Move>, t: nat) {
    && more != [] && NeverEarly(w, more, |more|)
    && more[|more| - 1].Arrives? && more[|more| - 1].index == t
    && Takes(OracleRuns.Before(w, more, |more| - 1), more[|more| - 1])
  }

  function Packet(x: nat): Move {
    Arrives(x, 0)
  }

  lemma BeforeAfterFirst(w: World, m: Move, more: seq<Move>, k: nat)
    requires k <= |more| + 1
    ensures OracleRuns.Before(w, [m] + more, k)
         == if k == 0 then w else OracleRuns.Before(OracleRuns.After(w, m), more, k - 1)
  {
    if k == 0 {
      assert ([m] + more)[..0] == [];
    } else {
      assert ([m] + more)[..k] == [m] + more[..k - 1];
      RunAppend(OracleRuns.After, w, [m], more[..k - 1]);
      assert [m][..0] == [];
    }
  }

  lemma NotEarlyAfterFirst(w: World, m: Move, more: seq<Move>, k: nat)
    requires k <= |more| && NotEarly(w, m) && NeverEarly(OracleRuns.After(w, m), more, |more|)
    ensures NotEarly(OracleRuns.Before(w, [m] + more, k), ([m] + more)[k])
  {
    BeforeAfterFirst(w, m, more, k);
    if k > 0 {
      assert ([m] + more)[k] == more[k - 1];
    }
  }

  lemma NeverEarlyAfterFirst(w: World, m: Move, more: seq<Move>)
    requires NotEarly(w, m) && NeverEarly(OracleRuns.After(w, m), more, |more|)
    ensures NeverEarly(w, [m] + more, |more| + 1)
  {
    forall k | 0 <= k < |more| + 1
      ensures NotEarly(OracleRuns.Before(w, [m] + more, k), ([m] + more)[k])
    {
      NotEarlyAfterFirst(w, m, more, k);
    }
  }

  lemma EndsAfterFirst(w: World, m: Move, more: seq<Move>, t: nat)
    requires NotEarly(w, m) && EndsTaking(OracleRuns.After(w, m), more, t)
    ensures EndsTaking(w, [m] + more, t)
  {
    NeverEarlyAfterFirst(w, m, more);
    BeforeAfterFirst(w, m, more, |more|);
  }

  lemma EndsAtOnce(w: World, m: Move)
    requires NotEarly(w, m) && Takes(w, m)
    ensures EndsTaking(w, [m], m.index)
  {
    assert [m][..0] == [];
  }

  // ---------------------------------------------------------------- whole rollovers apart

  /** The authenticator's highest is `m`; the tracker stands `gap` above `y`. */
  predicate Apart(w: World, m: nat, y: nat, gap: nat) {
    && w.helper.keyed && w.stream.highest == Some(m) && m <= INDEX_MAX
    && w.helper.port.tally.roc == Roc(y + gap) && w.helper.port.tally.highestSeq == Some(Seq(y + gap))
    && gap % SEQ_MODULO == 0
  }

  lemma SameSequence(x: nat, gap: nat)
    requires gap % SEQ_MODULO == 0
    ensures Seq(x + gap) == Seq(x)
  {
  }

  lemma NearIsPassed(m: nat, x: nat)
    requires m <= INDEX_MAX && x <= INDEX_MAX && m - 0x8000 < x < m + 0x8000
    ensures EstimatedIndex(m, Seq(x)) == x && !GoesRound(m, Seq(x))
  {
    EstimateRoundTrip(m, x);
  }

  lemma NearIsTracked(c: Tally, l: nat, s: nat, t: nat)
    requires c.roc == Roc(l) && c.highestSeq == Some(Seq(l)) && l < t < l + 0x8000 && t <= INDEX_MAX && s == Seq(t)
    ensures ComputedIndex(c, s) == t
    ensures Track(c, s).roc == Roc(t) && Track(c, s).highestSeq == Some(Seq(t))
  {
    assert LocalIndex(c, s) == l;
    EstimateRoundTrip(l, t);
  }

  /** A packet near both is passed on, and moves the tracker to as far above itself as it was. */
  lemma ApartStep(w: World, m: nat, y: nat, gap: nat, x: nat)
    requires Apart(w, m, y, gap) && y < x < y + 0x8000 && m - 0x8000 < x < m + 0x8000 && x + gap <= INDEX_MAX
    ensures Passes(w, x) && NotEarly(w, Packet(x))
    ensures Takes(w, Packet(x)) <==> AboveFloor(w.helper.port.floor, x + gap)
    ensures var next := OracleRuns.After(w, Packet(x));
            Apart(next, Max(Some(m), x), x, gap) && next.helper.port.floor == w.helper.port.floor
  {
    SameSequence(x, gap);
    NearIsPassed(m, x);
    NearIsTracked(w.helper.port.tally, y + gap, Seq(x), x + gap);
    ArrivalMoves(w, x, 0);
  }

  /** Packet after packet, each ahead of all before, up to any higher index. */
  lemma {:induction false} ClimbTo(w: World, x: nat, gap: nat, t: nat) returns (more: seq<Move>)
    requires Apart(w, x, x, gap) && x < t && t + gap <= INDEX_MAX && AboveFloor(w.helper.port.floor, t + gap)
    ensures EndsTaking(w, more, t)
    decreases t - x
  {
    if t < x + 0x8000 {
      ApartStep(w, x, x, gap, t);
      more := [Packet(t)];
      EndsAtOnce(w, Packet(t));
    } else {
      var y := x + 0x7FFF;
      ApartStep(w, x, x, gap, y);
      var rest := ClimbTo(OracleRuns.After(w, Packet(y)), y, gap, t);
      more := [Packet(y)] + rest;
      EndsAfterFirst(w, Packet(y), rest, t);
    }
  }

  // ---------------------------------------------------------------- a place found too high

  /** A searching loss whose session was sealed, and a packet that is about to find the place lost. */
  predicate AtLostPlace(w: World, t: nat) {
    && InStep(w) && LostPlace(w) && Passes(w, t) && !GoesRound(w.stream.highest.value, Seq(t))
    && w.helper.port.floor.Some? && w.stream.highest.value <= w.helper.port.floor.value < INDEX_MAX
  }

  /** The highest index of all is not a rollover above one in the lower half of the sequence space. */
  lemma LowHalf(m: nat)
    requires Seq(m) < 0x8000
    ensures m + SEQ_MODULO != INDEX_MAX
  {
  }

  /** An earlier counter is the one before, and the tracker comes to stand a rollover ahead. */
  lemma EarlyFindsTooHigh(w: World, t: nat, at: nat)
    requires AtLostPlace(w, t) && Roc(t) < w.helper.port.tally.roc
    ensures var m := w.stream.highest.value;
            var next := OracleRuns.After(w, Arrives(t, at));
            && t < m < t + 0x8000 && m + SEQ_MODULO != INDEX_MAX
            && ComputedIndex(w.helper.port.tally, Seq(t)) == t + SEQ_MODULO
            && Apart(next, m, t, SEQ_MODULO) && next.helper.port.floor == w.helper.port.floor
  {
    var m, c := w.stream.highest.value, w.helper.port.tally;
    EstimateIsExact(m, t);
    AheadOnTheCircle(m, t);
    assert m == Index(Roc(m), Seq(m)) && t == Index(Roc(t), Seq(t));
    Tracking.FoundAtCounter(c, t);
    assert Roc(t) == Roc(m) - 1;
    IndexParts(Roc(m), Seq(t));
    LowHalf(m);
    ArrivalMoves(w, t, at);
  }

  /** Another late packet, the last before `m`, brings the tracker to a rollover above it. */
  lemma LastBefore(w: World, m: nat, t: nat)
    requires Apart(w, m, t, SEQ_MODULO) && t < m - 1 && m < t + 0x8000 && m - 1 + SEQ_MODULO <= INDEX_MAX
    ensures var next := OracleRuns.After(w, Packet(m - 1));
            && NotEarly(w, Packet(m - 1)) && Apart(next, m, m - 1, SEQ_MODULO)
            && next.helper.port.floor == w.helper.port.floor
  {
    ApartStep(w, m, t, SEQ_MODULO, m - 1);
  }

  lemma TakenBetween(w: World, m: nat, t: nat, floor: nat, x: nat) returns (more: seq<Move>)
    requires Apart(w, m, t, SEQ_MODULO) && t < x < m < t + 0x8000
    requires w.helper.port.floor == Some(floor) && floor < x + SEQ_MODULO <= INDEX_MAX
    ensures EndsTaking(w, more, x)
  {
    ApartStep(w, m, t, SEQ_MODULO, x);
    more := [Packet(x)];
    EndsAtOnce(w, Packet(x));
  }

  /** The next packet in order brings the two exactly a rollover apart. */
  lemma NextInOrder(w: World, m: nat)
    requires m > 0 && Apart(w, m, m - 1, SEQ_MODULO) && m + 1 + SEQ_MODULO <= INDEX_MAX
    ensures var next := OracleRuns.After(w, Packet(m + 1));
            && NotEarly(w, Packet(m + 1)) && Apart(next, m + 1, m + 1, SEQ_MODULO)
            && next.helper.port.floor == w.helper.port.floor
            && (Takes(w, Packet(m + 1)) <==> AboveFloor(w.helper.port.floor, m + 1 + SEQ_MODULO))
  {
    ApartStep(w, m, m - 1, SEQ_MODULO, m + 1);
  }

  lemma AheadUndercuts(w: World, m: nat, floor: nat) returns (more: seq<Move>, x: nat)
    requires m > 0 && Apart(w, m, m - 1, SEQ_MODULO) && m + SEQ_MODULO != INDEX_MAX
    requires w.helper.port.floor == Some(floor) && m + SEQ_MODULO <= floor + 1 <= INDEX_MAX
    ensures EndsTaking(w, more, x) && x <= floor
  {
    NextInOrder(w, m);
    if floor < m + 1 + SEQ_MODULO {
      more, x := [Packet(m + 1)], m + 1;
      EndsAtOnce(w, Packet(m + 1));
    } else {
      x := floor + 1 - SEQ_MODULO;
      var rest := ClimbTo(OracleRuns.After(w, Packet(m + 1)), m + 1, SEQ_MODULO, x);
      more := [Packet(m + 1)] + rest;
      EndsAfterFirst(w, Packet(m + 1), rest, x);
    }
  }

  /** From there the stream, coming up on the floor, has a packet taken while it is still below. */
  lemma TooHighUndercuts(w: World, m: nat, t: nat, floor: nat) returns (more: seq<Move>, x: nat)
    requires Apart(w, m, t, SEQ_MODULO) && t < m < t + 0x8000 && m + SEQ_MODULO != INDEX_MAX
    requires w.helper.port.floor == Some(floor) && t + SEQ_MODULO <= floor < INDEX_MAX
    ensures EndsTaking(w, more, x) && x <= floor
  {
    x := floor + 1 - SEQ_MODULO;
    if x < m {
      more := TakenBetween(w, m, t, floor, x);
    } else if t == m - 1 {
      more, x := AheadUndercuts(w, m, floor);
    } else {
      LastBefore(w, m, t);
      var rest;
      rest, x := AheadUndercuts(OracleRuns.After(w, Packet(m - 1)), m, floor);
      more := [Packet(m - 1)] + rest;
      EndsAfterFirst(w, Packet(m - 1), rest, x);
    }
  }

  /** However the run goes on, while no place is found too high, whatever is taken lies above the floor. */
  ghost predicate KeepsFloor(w: World) {
    forall more, t :: EndsTaking(w, more, t) ==>
      AboveFloor(OracleRuns.Before(w, more, |more| - 1).helper.port.floor, t)
  }

  lemma NotAheadKeepsFloor(w: World)
    requires NotAhead(w)
    ensures KeepsFloor(w)
  {
    forall more, t | EndsTaking(w, more, t)
      ensures AboveFloor(OracleRuns.Before(w, more, |more| - 1).helper.port.floor, t)
    {
      TakenLiesAboveFloor(w, more, |more| - 1);
    }
  }

  /** The floor a run starts on is as low as any it has. */
  lemma TakenAboveFirstFloor(w: World, more: seq<Move>, t: nat)
    requires KeepsFloor(w) && EndsTaking(w, more, t)
    ensures AboveFloor(w.helper.port.floor, t)
  {
    if w.helper.port.floor.Some? {
      assert more[..0] == [];
      MemoryAndFloorStay(w, more, 0, |more| - 1, w.helper.port.floor.value);
    }
  }

  /** The packet, if it is taken, lies above the floor, and so does whatever is taken after it. */
  ghost predicate FindsSafely(w: World, t: nat, at: nat) {
    && (Takes(w, Arrives(t, at)) ==> AboveFloor(w.helper.port.floor, t))
    && KeepsFloor(OracleRuns.After(w, Arrives(t, at)))
  }

  /**
   * The packet that finds a place lost keeps the floor true of the packets' own indexes - now and
   * however the run goes on - if and only if it has no earlier counter than the one kept.
   */
  lemma FindsSafelyIffNotEarly(w: World, t: nat, at: nat)
    requires AtLostPlace(w, t)
    ensures FindsSafely(w, t, at) <==> w.helper.port.tally.roc <= Roc(t)
  {
    var m := Arrives(t, at);
    var next := OracleRuns.After(w, m);
    if w.helper.port.tally.roc <= Roc(t) {
      ComputedAtMost(w, t, at);
      NotAheadStays(w, m);
      NotAheadKeepsFloor(next);
    } else {
      EarlyFindsTooHigh(w, t, at);
      var floor := w.helper.port.floor.value;
      if t + SEQ_MODULO <= floor {
        var more, x := TooHighUndercuts(next, w.stream.highest.value, t, floor);
        if KeepsFloor(next) {
          TakenAboveFirstFloor(next, more, x);
        }
      }
    }
  }

  // ---------------------------------------------------------------- in every run

  /** What the authenticator holds highest has been accepted, or lies at or below the floor. */
  predicate Accounted(w: World) {
    InStep(w) && (w.helper.keyed && w.stream.highest.Some? ==>
      PortLaws.IsReached(w.helper.port, w.stream.highest.value))
  }

  lemma ReachedStays(w: World, m: Move, x: nat)
    requires PortLaws.IsReached(w.helper.port, x)
    ensures PortLaws.IsReached(OracleRuns.After(w, m).helper.port, x)
  {
    MoveKeepsFloor(w, m, x);
  }

  lemma PacketIsReached(w: World, index: nat, at: nat)
    requires InStep(w) && Passes(w, index) && Resumes(w, Arrives(index, at))
    ensures PortLaws.IsReached(OracleRuns.After(w, Arrives(index, at)).helper.port, index)
  {
    PacketInStep(w, index, at);
    FloorStep(w.helper, Heard(index, at), index);
  }

  lemma TurnKeepsHighest(w: World, step: Step)
    ensures var next := OracleRuns.After(w, Turn(step));
            next.helper.keyed && next.stream.highest.Some? ==> w.helper.keyed && next.stream == w.stream
  {
    if !step.Authenticated? && HelperRuns.After(w.helper, step).keyed {
      OtherTurnsLeaveTracker(w.helper, step);
    }
  }

  lemma AccountedStays(w: World, m: Move)
    requires Accounted(w) && Resumes(w, m)
    ensures Accounted(OracleRuns.After(w, m))
  {
    InStepStays(w, m);
    if w.helper.keyed && w.stream.highest.Some? {
      ReachedStays(w, m, w.stream.highest.value);
    }
    match m
    case Turn(step) => TurnKeepsHighest(w, step);
    case Arrives(index, at) =>
      if Passes(w, index) {
        ArrivalMoves(w, index, at);
        PacketIsReached(w, index, at);
      }
  }

  lemma AlwaysAccounted(w: World, ms: seq<Move>, n: nat)
    requires Accounted(w) && n <= |ms| && AlwaysResumes(w, ms, n)
    ensures Accounted(OracleRuns.Before(w, ms, n))
  {
    forall t, l | Accounted(t) && Resumes(t, l)
      ensures Accounted(OracleRuns.After(t, l))
    {
      AccountedStays(t, l);
    }
    assert ms[..0] == [];
    Keeps(OracleRuns.After, Accounted, Resumes, w, ms, 0, n);
  }

  /**
   * In every run: the first packet after a searching loss whose session was sealed leaves the
   * floor true of the packets' own indexes, for good, if and only if its counter is not earlier
   * than the one the helper kept.
   */
  lemma LossKeepsFloorIffNotEarly(
      ssrc: nat, floor: Option<nat>, from: Option<int>, every: int, ms: seq<Move>, t: nat, at: nat)
    requires var start := Opening(ssrc, floor, from, every);
             var w := OracleRuns.Before(start, ms, |ms|);
             && AlwaysResumes(start, ms, |ms|) && LostPlace(w) && Sealed(w.helper) && Passes(w, t)
             && !GoesRound(w.stream.highest.value, Seq(t)) && !FloorAtLeast(w.helper, INDEX_MAX)
    ensures var w := OracleRuns.Before(Opening(ssrc, floor, from, every), ms, |ms|);
            FindsSafely(w, t, at) <==> w.helper.port.tally.roc <= Roc(t)
  {
    var start := Opening(ssrc, floor, from, every);
    AlwaysAccounted(start, ms, |ms|);
    FindsSafelyIffNotEarly(OracleRuns.Before(start, ms, |ms|), t, at);
  }

  // ---------------------------------------------------------------- what a new key can take

  /** No key is out, and the candidate is not above this counter. */
  predicate HandsOutAtMost(h: Helper, roc: nat) {
    h.port.tally.keyCandidate.None? && h.port.candidate <= roc
  }

  lemma HandOut(w: World)
    requires w.helper.port.tally.keyCandidate.None?
    ensures var ask := Turn(KeyRequested(w.helper.port.ssrc));
            var next := OracleRuns.After(w, ask);
            && NotEarly(w, ask) && next.helper.keyed && next.stream == Stream(w.helper.port.candidate, None)
            && next.helper.port.tally.roc == w.helper.port.candidate && next.helper.port.tally.highestSeq.None?
            && next.helper.port.floor == w.helper.port.floor
  {
  }

  /** The first packet under a key is passed on if it has the counter handed out. */
  lemma FirstUnderKey(w: World, c: nat, at: nat)
    requires w.helper.keyed && w.stream == Stream(c, None) && c <= ROC_MAX
    requires w.helper.port.tally.roc == c && w.helper.port.tally.highestSeq.None?
    ensures var x := Index(c, 0);
            var next := OracleRuns.After(w, Arrives(x, at));
            && Passes(w, x) && NotEarly(w, Arrives(x, at))
            && (Takes(w, Arrives(x, at)) <==> AboveFloor(w.helper.port.floor, x))
            && Apart(next, x, x, 0) && next.helper.port.floor == w.helper.port.floor
  {
    var x := Index(c, 0);
    IndexParts(c, 0);
    Tracking.FoundAtCounter(w.helper.port.tally, x);
    ArrivalMoves(w, x, at);
  }

  /** Whatever lies above the floor, at the candidate's counter or later, can be taken. */
  lemma CanBeTaken(w: World, t: nat) returns (more: seq<Move>)
    requires t <= INDEX_MAX && HandsOutAtMost(w.helper, Roc(t)) && AboveFloor(w.helper.port.floor, t)
    ensures EndsTaking(w, more, t)
  {
    var ask, x := Turn(KeyRequested(w.helper.port.ssrc)), Index(w.helper.port.candidate, 0);
    HandOut(w);
    var asked := OracleRuns.After(w, ask);
    FirstUnderKey(asked, w.helper.port.candidate, 0);
    SameCounterOrLater(w.helper.port.candidate, t);
    assert x <= t;
    var rest := [Packet(x)];
    if x == t {
      EndsAtOnce(asked, Packet(x));
    } else {
      var climb := ClimbTo(OracleRuns.After(asked, Packet(x)), x, 0, t);
      rest := [Packet(x)] + climb;
      EndsAfterFirst(asked, Packet(x), climb, t);
    }
    more := [ask] + rest;
    EndsAfterFirst(w, ask, rest, t);
  }

  /**
   * Once a session has ended and the search is back at the floor's counter, the packets that can
   * be taken again are exactly those whose own index lies above the floor: a packet taken at a
   * computed index below its own may be among them.
   */
  lemma TakenAgainIffAboveFloor(w: World, t: nat)
    requires NotAhead(w) && t <= INDEX_MAX && HandsOutAtMost(w.helper, FloorRoc(w.helper.port.floor))
    ensures (exists more :: EndsTaking(w, more, t)) <==> AboveFloor(w.helper.port.floor, t)
  {
    if AboveFloor(w.helper.port.floor, t) {
      if w.helper.port.floor.Some? {
        PortLaws.RocMonotone(w.helper.port.floor.value, t);
      }
      var more := CanBeTaken(w, t);
    }
    NotAheadKeepsFloor(w);
    forall more | EndsTaking(w, more, t)
      ensures AboveFloor(w.helper.port.floor, t)
    {
      TakenAboveFirstFloor(w, more, t);
    }
  }

  // ---------------------------------------------------------------- sessions, at true indexes

  /** Whatever the run goes on to take lies above whatever it took before, packet by packet. */
  ghost predicate SeparatesTruly(w: World, ms: seq<Move>) {
    forall i: nat, more, t ::
      i < |ms| && Takes(OracleRuns.Before(w, ms, i), ms[i]) && EndsTaking(OracleRuns.Before(w, ms, |ms|), more, t)
      ==> ms[i].index < t
  }

  lemma HighestAtMove(w: World, ms: seq<Move>, n: nat)
    requires InStep(w) && n < |ms| && AlwaysResumes(w, ms, n + 1)
    ensures var was := OracleRuns.Before(w, ms, n).helper.port.tally.highestIndex;
            var now := OracleRuns.Before(w, ms, n + 1).helper.port.tally.highestIndex;
            now == was || (Takes(OracleRuns.Before(w, ms, n), ms[n]) && now == Some(ms[n].index))
  {
    var b := OracleRuns.Before(w, ms, n);
    AlwaysInStep(w, ms, n);
    RunStep(OracleRuns.After, w, ms, n);
    match ms[n]
    case Turn(step) => if !step.Authenticated? { OnlyPacketsAreAccepted(b.helper, step); }
    case Arrives(index, at) => if Passes(b, index) { PacketInStep(b, index, at); }
  }

  /** In step, the maximum held is the true index of a packet taken. */
  lemma {:induction false} HighestWasTaken(w: World, ms: seq<Move>, n: nat) returns (i: nat)
    requires InStep(w) && 0 < n <= |ms| && AlwaysResumes(w, ms, n)
    requires w.helper.port.tally.highestIndex.None?
    requires OracleRuns.Before(w, ms, n).helper.port.tally.highestIndex.Some?
    ensures i < n && Takes(OracleRuns.Before(w, ms, i), ms[i])
    ensures OracleRuns.Before(w, ms, n).helper.port.tally.highestIndex == Some(ms[i].index)
    decreases n
  {
    HighestAtMove(w, ms, n - 1);
    assert ms[..0] == [];
    if OracleRuns.Before(w, ms, n - 1).helper.port.tally.highestIndex
       == OracleRuns.Before(w, ms, n).helper.port.tally.highestIndex {
      i := HighestWasTaken(w, ms, n - 1);
    } else {
      i := n - 1;
    }
  }

  /** Every packet taken in step is remembered at its true index. */
  lemma TakenInStep(w: World, ms: seq<Move>, i: nat)
    requires InStep(w) && i < |ms| && AlwaysResumes(w, ms, i + 1) && Takes(OracleRuns.Before(w, ms, i), ms[i])
    ensures Remembers(OracleRuns.Before(w, ms, |ms|).helper, ms[i].index)
  {
    AlwaysInStep(w, ms, i);
    var b := OracleRuns.Before(w, ms, i);
    PacketInStep(b, ms[i].index, ms[i].at);
    FloorStep(b.helper, Heard(ms[i].index, ms[i].at), 0);
    RunStep(OracleRuns.After, w, ms, i);
    MemoryAndFloorStay(w, ms, i + 1, |ms|, ms[i].index);
  }

  lemma SealedSeparatesTruly(w: World, ms: seq<Move>)
    requires InStep(w) && AlwaysResumes(w, ms, |ms|) && Sealed(OracleRuns.Before(w, ms, |ms|).helper)
    ensures SeparatesTruly(w, ms)
  {
    var last := OracleRuns.Before(w, ms, |ms|);
    AlwaysInStep(w, ms, |ms|);
    NotAheadKeepsFloor(last);
    forall i: nat, more, t
      | i < |ms| && Takes(OracleRuns.Before(w, ms, i), ms[i]) && EndsTaking(last, more, t)
      ensures ms[i].index < t
    {
      TakenInStep(w, ms, i);
      TakenAboveFirstFloor(last, more, t);
    }
  }

  lemma UnsealedIsTrulyUndercut(w: World, ms: seq<Move>)
    requires InStep(w) && AlwaysResumes(w, ms, |ms|) && w.helper.port.tally.highestIndex.None?
    requires var h := OracleRuns.Before(w, ms, |ms|).helper;
             && !Sealed(h) && h.port.tally.keyCandidate.None? && CandidateLow(h.port) && PortLaws.InRange(h.port)
    ensures !SeparatesTruly(w, ms)
  {
    var last := OracleRuns.Before(w, ms, |ms|);
    var p := last.helper.port;
    assert ms[..0] == [];
    var i := HighestWasTaken(w, ms, |ms|);
    if p.floor.Some? {
      PortLaws.RocMonotone(p.floor.value, ms[i].index);
    }
    var t := if AboveFloor(p.floor, Index(p.candidate, 0)) then Index(p.candidate, 0) else p.floor.value + 1;
    IndexParts(p.candidate, 0);
    SameCounterOrLater(p.candidate, ms[i].index);
    SameCounterOrLater(p.candidate, t);
    var more := CanBeTaken(last, t);
  }

  lemma SaneMove(w: World, m: Move, sent: Option<nat>)
    requires SaneHelper(w.helper, sent)
    ensures SaneHelper(OracleRuns.After(w, m).helper, sent)
  {
    match m
    case Turn(step) => SaneStep(w.helper, step, sent);
    case Arrives(index, at) => SaneStep(w.helper, Heard(index, at), sent);
  }

  lemma AlwaysSaneWorld(
      ssrc: nat, floor: Option<nat>, from: Option<int>, every: int, ms: seq<Move>, n: nat)
    requires n <= |ms|
    ensures SaneHelper(OracleRuns.Before(Opening(ssrc, floor, from, every), ms, n).helper, PortLaws.SentFloor(floor))
  {
    var sent := PortLaws.SentFloor(floor);
    var inv := (t: World) => SaneHelper(t.helper, sent);
    PortLaws.StartedIsSane(ssrc, floor, from, every);
    forall t, l | inv(t)
      ensures inv(OracleRuns.After(t, l))
    {
      SaneMove(t, l, sent);
    }
    Always(OracleRuns.After, inv, Opening(ssrc, floor, from, every), ms[..n]);
  }

  /** The run's last move is the last section of a searching helper's reset. */
  predicate EndsLoss(w: World, ms: seq<Move>) {
    && ms != [] && ms[|ms| - 1] == Turn(KeyForgotten)
    && OracleRuns.Before(w, ms, |ms| - 1).helper.tick.Forgetting?
  }

  lemma LossEndsLow(ssrc: nat, floor: Option<nat>, from: Option<int>, every: int, ms: seq<Move>)
    requires EndsLoss(Opening(ssrc, floor, from, every), ms)
    ensures var p := OracleRuns.Before(Opening(ssrc, floor, from, every), ms, |ms|).helper.port;
            p.tally.keyCandidate.None? && CandidateLow(p) && PortLaws.InRange(p)
  {
    AlwaysSaneWorld(ssrc, floor, from, every, ms, |ms| - 1);
    AlwaysSaneWorld(ssrc, floor, from, every, ms, |ms|);
    RunStep(OracleRuns.After, Opening(ssrc, floor, from, every), ms, |ms| - 1);
  }

  /**
   * As long as every lost place has been found by a packet ahead on the counter kept, a searching
   * loss separates its sessions packet by packet exactly when it does by computed index: if and
   * only if its session was sealed.
   */
  lemma LossSeparatesTrulyIffSealed(ssrc: nat, floor: Option<nat>, from: Option<int>, every: int, ms: seq<Move>)
    requires var w := Opening(ssrc, floor, from, every);
             AlwaysResumes(w, ms, |ms|) && EndsLoss(w, ms)
    ensures var w := Opening(ssrc, floor, from, every);
            SeparatesTruly(w, ms) <==> Sealed(OracleRuns.Before(w, ms, |ms|).helper)
  {
    var w := Opening(ssrc, floor, from, every);
    if Sealed(OracleRuns.Before(w, ms, |ms|).helper) {
      SealedSeparatesTruly(w, ms);
    } else {
      LossEndsLow(ssrc, floor, from, every, ms);
      UnsealedIsTrulyUndercut(w, ms);
    }
  }

  // ---------------------------------------------------------------- the inputs

  /** A stream is found, confirmed, and lost by a searching helper whose reset nothing falls into. */
  function LostAfter(index: nat): seq<Move> {
    [Turn(KeyRequested(7)), Arrives(index, 1), Turn(TickLooks), Turn(TickDecides(2, 1000)), Turn(TickLooks),
     Turn(TickDecides(5000, 1000)), Turn(FloorMoves), Turn(SearchRestarts), Turn(KeyForgotten)]
  }

  /** A helper started just below its stream. */
  predicate StartsBelow(w: World, floor: nat, index: nat) {
    w == Opening(7, Some(floor), None, 512) && floor < index <= INDEX_MAX && Roc(index) == Roc(floor)
  }

  lemma FoundStream(w: World, floor: nat, index: nat, ms: seq<Move>)
    requires StartsBelow(w, floor, index) && LostAfter(index) <= ms
    ensures var b := OracleRuns.Before(w, ms, 2);
            && Passes(OracleRuns.Before(w, ms, 1), index) && !LostPlace(OracleRuns.Before(w, ms, 1))
            && b.helper.keyed && b.helper.tick.AtRest? && b.stream == Stream(Roc(index), Some(index))
            && b.helper.port.floor == Some(floor) && b.helper.port.mode.SearchingMode?
            && !b.helper.port.shuttingDown && !b.helper.port.confirmed && !b.helper.port.stopping
            && var c := b.helper.port.tally;
               && c.roc == Roc(index) && c.highestIndex == Some(index) && c.highestSeq == Some(Seq(index))
               && c.keyAuthenticated == 1 && c.lastAuthMs == 1 && c.keyCandidate == Some(Roc(index))
  {
    assert ms[..0] == [];
    var l := LostAfter(index);
    assert ms[0] == l[0] && ms[1] == l[1];
    RunStep(OracleRuns.After, w, ms, 0);
    RunStep(OracleRuns.After, w, ms, 1);
    var c := OracleRuns.Before(w, ms, 1).helper.port.tally;
    assert c.roc == Roc(floor) && c.highestSeq.None?;
    SameCounterOrLater(Roc(floor), index);
    Tracking.FoundAtCounter(c, index);
  }

  lemma ConfirmedStream(w: World, floor: nat, index: nat, ms: seq<Move>)
    requires StartsBelow(w, floor, index) && LostAfter(index) <= ms
    ensures var b := OracleRuns.Before(w, ms, 4);
            && b.helper.keyed && b.helper.tick.AtRest? && b.stream == Stream(Roc(index), Some(index))
            && b.helper.port.floor == Some(floor) && b.helper.port.mode.SearchingMode?
            && !b.helper.port.shuttingDown && b.helper.port.confirmed && !b.helper.port.stopping
            && var c := b.helper.port.tally;
               c.roc == Roc(index) && c.highestIndex == Some(index) && c.lastAuthMs == 1
  {
    FoundStream(w, floor, index, ms);
    var l := LostAfter(index);
    assert ms[2] == l[2] && ms[3] == l[3];
    RunStep(OracleRuns.After, w, ms, 2);
    RunStep(OracleRuns.After, w, ms, 3);
  }

  lemma ReadLoss(w: World, floor: nat, index: nat, ms: seq<Move>)
    requires StartsBelow(w, floor, index) && LostAfter(index) <= ms
    ensures var b := OracleRuns.Before(w, ms, 6);
            && b.helper.keyed && b.helper.tick == Losing(Some(index)) && b.stream == Stream(Roc(index), Some(index))
            && b.helper.port.floor == Some(floor) && b.helper.port.mode.SearchingMode?
            && !b.helper.port.shuttingDown && !b.helper.port.stopping
            && b.helper.port.tally.roc == Roc(index) && b.helper.port.tally.highestIndex == Some(index)
  {
    ConfirmedStream(w, floor, index, ms);
    var l := LostAfter(index);
    assert ms[4] == l[4] && ms[5] == l[5];
    RunStep(OracleRuns.After, w, ms, 4);
    RunStep(OracleRuns.After, w, ms, 5);
  }

  /** The helper has kept the counter and lost its place; its session is sealed. */
  lemma LostStream(w: World, floor: nat, index: nat, ms: seq<Move>)
    requires StartsBelow(w, floor, index) && LostAfter(index) <= ms
    ensures var b := OracleRuns.Before(w, ms, 9);
            && LostPlace(b) && Sealed(b.helper) && b.helper.tick.AtRest? && b.stream == Stream(Roc(index), Some(index))
            && b.helper.port.floor == Some(index) && b.helper.port.mode.SearchingMode?
            && !b.helper.port.shuttingDown && !b.helper.port.stopping && !b.helper.port.confirmed
            && b.helper.port.tally.roc == Roc(index) && b.helper.port.tally.highestIndex == Some(index)
  {
    ReadLoss(w, floor, index, ms);
    var l := LostAfter(index);
    assert ms[6] == l[6] && ms[7] == l[7] && ms[8] == l[8];
    RunStep(OracleRuns.After, w, ms, 6);
    RunStep(OracleRuns.After, w, ms, 7);
    RunStep(OracleRuns.After, w, ms, 8);
  }

  /**
   * A late packet of the counter before finds the place lost: it is computed a rollover too high
   * and taken, below the floor the helper was started with, so that an earlier helper may have
   * taken it already. Nothing fell into the reset, and the session was sealed. The maximum is a
   * rollover too high from then on, and so is the next packet.
   */
  lemma EarlyPacketIsTaken(w: World)
    requires w == Opening(7, Some(0x2_0000), None, 512)
    ensures var ms := LostAfter(0x2_0010) + [Arrives(0x1_FFF0, 5001)];
            var b, next := OracleRuns.Before(w, ms, 9), OracleRuns.Before(w, ms, 10);
            && Sealed(b.helper) && Takes(b, ms[9]) && ms[9].index < 0x2_0000
            && next.helper.port.tally.highestIndex == Some(0x2_FFF0)
            && Passes(next, 0x2_0011) && ComputedIndex(next.helper.port.tally, 0x11) == 0x3_0011
  {
    var ms := LostAfter(0x2_0010) + [Arrives(0x1_FFF0, 5001)];
    LostStream(w, 0x2_0000, 0x2_0010, ms);
    RunStep(OracleRuns.After, w, ms, 9);
    var c := OracleRuns.Before(w, ms, 9).helper.port.tally;
    Tracking.FoundAtCounter(c, 0x1_FFF0);
    ArrivalMoves(OracleRuns.Before(w, ms, 9), 0x1_FFF0, 5001);
  }

  /** A stream that wraps in the silence, and goes on until it is taken a rollover too low; then a start. */
  function SilentWrap(): seq<Move> {
    LostAfter(0x1_FFFF) + [Packet(0x2_0000), Packet(0x2_7000), Packet(0x2_E000), Packet(0x3_0001),
                           Turn(StartRead), Turn(TornDown)]
  }

  /** The tracker follows the authenticator a rollover behind. */
  predicate Behind(w: World, m: nat) {
    && w.helper.keyed && w.stream == Stream(1, Some(m)) && w.helper.tick.AtRest? && w.helper.port.floor == Some(0x1_FFFF)
    && w.helper.port.mode.SearchingMode? && !w.helper.port.shuttingDown && !w.helper.port.stopping
    && !w.helper.port.confirmed && w.helper.port.tally.highestIndex == Some(0x1_FFFF)
    && m >= SEQ_MODULO && w.helper.port.tally.roc == Roc(m - SEQ_MODULO) && w.helper.port.tally.highestSeq == Some(Seq(m))
  }

  lemma WrapMoves(ms: seq<Move>)
    requires ms == SilentWrap()
    ensures |ms| == 15 && LostAfter(0x1_FFFF) <= ms && ms[0].Turn?
    ensures ms[9] == Packet(0x2_0000) && ms[10] == Packet(0x2_7000) && ms[11] == Packet(0x2_E000)
    ensures ms[12] == Packet(0x3_0001) && ms[13] == Turn(StartRead) && ms[14] == Turn(TornDown)
    ensures forall n :: 2 <= n < 9 ==> ms[n].Turn?
  {
  }

  lemma WrapIsRefused(w: World, ms: seq<Move>)
    requires w == Opening(7, Some(0x1_0000), None, 512) && ms == SilentWrap()
    ensures NotEarly(OracleRuns.Before(w, ms, 9), ms[9])
    ensures Behind(OracleRuns.Before(w, ms, 10), 0x2_0000)
  {
    WrapMoves(ms);
    LostStream(w, 0x1_0000, 0x1_FFFF, ms);
    RunStep(OracleRuns.After, w, ms, 9);
    Tracking.FoundAtCounter(OracleRuns.Before(w, ms, 9).helper.port.tally, 0x2_0000);
  }

  lemma BehindComputes(w: World, m: nat, x: nat)
    requires Behind(w, m) && m < x < m + 0x8000 && x <= 0x3_FFFF
    ensures Passes(w, x) && NotEarly(w, Packet(x))
    ensures ComputedIndex(w.helper.port.tally, Seq(x)) == x - SEQ_MODULO
    ensures var c := Track(w.helper.port.tally, Seq(x));
            c.roc == Roc(x - SEQ_MODULO) && c.highestSeq == Some(Seq(x))
  {
    SameSequence(m - SEQ_MODULO, SEQ_MODULO);
    SameSequence(x - SEQ_MODULO, SEQ_MODULO);
    NearIsPassed(m, x);
    NearIsTracked(w.helper.port.tally, m - SEQ_MODULO, Seq(x), x - SEQ_MODULO);
  }

  lemma BehindStep(w: World, m: nat, x: nat)
    requires Behind(w, m) && m < x < m + 0x8000 && x <= 0x2_FFFF
    ensures Behind(OracleRuns.After(w, Packet(x)), x)
  {
    BehindComputes(w, m, x);
  }

  lemma StaysBehind(w: World, ms: seq<Move>)
    requires w == Opening(7, Some(0x1_0000), None, 512) && ms == SilentWrap()
    ensures Behind(OracleRuns.Before(w, ms, 11), 0x2_7000) && Behind(OracleRuns.Before(w, ms, 12), 0x2_E000)
  {
    WrapMoves(ms);
    WrapIsRefused(w, ms);
    RunStep(OracleRuns.After, w, ms, 10);
    BehindStep(OracleRuns.Before(w, ms, 10), 0x2_0000, 0x2_7000);
    RunStep(OracleRuns.After, w, ms, 11);
    BehindStep(OracleRuns.Before(w, ms, 11), 0x2_7000, 0x2_E000);
  }

  /** Taken at last, at an index a rollover below its own. */
  lemma TakenTooLow(b: World)
    requires Behind(b, 0x2_E000)
    ensures var next := OracleRuns.After(b, Packet(0x3_0001));
            && Takes(b, Packet(0x3_0001)) && next.helper.tick.AtRest? && MayStart(next.helper.port)
            && !next.helper.port.confirmed && next.helper.port.floor == Some(0x1_FFFF)
            && next.helper.port.tally.highestIndex == Some(0x2_0001)
  {
    BehindComputes(b, 0x2_E000, 0x3_0001);
  }

  /** A start seals the session there. */
  lemma StartSeals(b: World)
    requires b.helper.tick.AtRest? && MayStart(b.helper.port) && !b.helper.port.confirmed
    requires b.helper.port.floor == Some(0x1_FFFF) && b.helper.port.tally.highestIndex == Some(0x2_0001)
    ensures var next := OracleRuns.After(OracleRuns.After(b, Turn(StartRead)), Turn(TornDown));
            && Sealed(next.helper) && next.helper.port.floor == Some(0x2_0001)
            && HandsOutAtMost(next.helper, FloorRoc(next.helper.port.floor))
  {
    PortLaws.StartIsResumable(FloorRoc(Some(0x2_0001)), b.helper.port.carried, b.helper.port.floorEvery);
  }

  lemma WrapIsNeverEarly(w: World, ms: seq<Move>)
    requires w == Opening(7, Some(0x1_0000), None, 512) && ms == SilentWrap()
    ensures NeverEarly(w, ms, |ms|)
  {
    WrapMoves(ms);
    FirstHasNoHighest(w, ms);
    WrapIsRefused(w, ms);
    StaysBehind(w, ms);
    BehindComputes(OracleRuns.Before(w, ms, 10), 0x2_0000, 0x2_7000);
    BehindComputes(OracleRuns.Before(w, ms, 11), 0x2_7000, 0x2_E000);
    BehindComputes(OracleRuns.Before(w, ms, 12), 0x2_E000, 0x3_0001);
    forall n | 0 <= n < |ms|
      ensures NotEarly(OracleRuns.Before(w, ms, n), ms[n])
    {
      assert n < 9 || n == 9 || n == 10 || n == 11 || n == 12 || ms[n].Turn?;
    }
  }

  lemma FirstHasNoHighest(w: World, ms: seq<Move>)
    requires w.stream.highest.None? && 0 < |ms| && ms[0].Turn?
    ensures OracleRuns.Before(w, ms, 1).stream.highest.None?
  {
    assert ms[..0] == [];
    RunStep(OracleRuns.After, w, ms, 0);
  }

  lemma TakenAndSealed(w: World, ms: seq<Move>, n: nat)
    requires n + 2 < |ms| && Behind(OracleRuns.Before(w, ms, n), 0x2_E000)
    requires ms[n] == Packet(0x3_0001) && ms[n + 1] == Turn(StartRead) && ms[n + 2] == Turn(TornDown)
    ensures Takes(OracleRuns.Before(w, ms, n), ms[n])
    ensures var b := OracleRuns.Before(w, ms, n + 3);
            && Sealed(b.helper) && b.helper.port.floor == Some(0x2_0001)
            && HandsOutAtMost(b.helper, FloorRoc(b.helper.port.floor))
  {
    RunStep(OracleRuns.After, w, ms, n);
    RunStep(OracleRuns.After, w, ms, n + 1);
    RunStep(OracleRuns.After, w, ms, n + 2);
    TakenTooLow(OracleRuns.Before(w, ms, n));
    StartSeals(OracleRuns.Before(w, ms, n + 1));
  }

  /** It lies above the floor now. */
  lemma TakenOnceMore(b: World) returns (more: seq<Move>)
    requires b.helper.port.floor == Some(0x2_0001) && HandsOutAtMost(b.helper, FloorRoc(b.helper.port.floor))
    ensures EndsTaking(b, more, 0x3_0001)
  {
    more := CanBeTaken(b, 0x3_0001);
  }

  /**
   * The other direction: a packet is taken at an index below its own, no place was found too high,
   * the session was sealed - and the packet can be taken again.
   */
  lemma TooLowIsTakenAgain(w: World) returns (ms: seq<Move>, more: seq<Move>)
    requires w == Opening(7, Some(0x1_0000), None, 512)
    ensures ms == SilentWrap() && |ms| == 15 && NeverEarly(w, ms, 15)
    ensures Takes(OracleRuns.Before(w, ms, 12), ms[12]) && Sealed(OracleRuns.Before(w, ms, 15).helper)
    ensures EndsTaking(OracleRuns.Before(w, ms, 15), more, ms[12].index)
  {
    ms := SilentWrap();
    WrapMoves(ms);
    WrapIsNeverEarly(w, ms);
    StaysBehind(w, ms);
    TakenAndSealed(w, ms, 12);
    more := TakenOnceMore(OracleRuns.Before(w, ms, 15));
  }
}
