/**
 * A helper and the authenticator it listens to. A packet has a true index; the authenticator
 * passes it on exactly when its own estimate is that index; the helper sees its sequence number.
 */
module OracleRuns {
  import opened Wrappers
  import opened PacketIndex
  import opened PortSpec
  import opened HelperRuns
  import opened HelperSessions
  import opened Runs
  import FloorHistory
  import PortLaws
  import SessionFence
  import StreamRow
  import Tracking

  /** What the authenticator counts from, and the highest index it has authenticated since. */
  datatype Stream = Stream(seed: nat, highest: Option<nat>)

  datatype World = World(helper: Helper, stream: Stream)

  datatype Move =
    | Turn(step: Step)                 // of the helper's, but for a packet
    | Arrives(index: nat, at: nat)

  predicate Passes(w: World, index: nat) {
    && w.helper.keyed && index <= INDEX_MAX
    && Tracking.Authenticates(w.stream.seed, w.stream.highest, index)
  }

  function Heard(index: nat, at: nat): Step {
    Authenticated(Some(Seq(index)), at)
  }

  function After(w: World, m: Move): World {
    match m
    case Turn(step) =>
      if step.Authenticated? then w
      else
        var event := Next(w.helper, step).1;
        World(HelperRuns.After(w.helper, step),
              if event.HandedKey? then Stream(event.candidate, None) else w.stream)
    case Arrives(index, at) =>
      if !Passes(w, index) then w
      else
        World(HelperRuns.After(w.helper, Heard(index, at)),
              w.stream.(highest := Some(Max(w.stream.highest, index))))
  }

  /** The packet is authenticated, and the helper accepts it. */
  predicate Takes(w: World, m: Move) {
    m.Arrives? && Passes(w, m.index) && Next(w.helper, Heard(m.index, m.at)).1.AcceptedUnder?
  }

  /** The helper has lost its place since the authenticator's last packet: a searching loss. */
  predicate LostPlace(w: World) {
    w.helper.keyed && w.stream.highest.Some? && w.helper.port.tally.highestSeq.None?
  }

  /** If the place was lost, the packet to find it by is ahead of all before, on the counter kept. */
  predicate Resumes(w: World, m: Move) {
    m.Arrives? && Passes(w, m.index) && LostPlace(w) ==>
      m.index > w.stream.highest.value && Roc(m.index) == w.helper.port.tally.roc
  }

  /** The tracker stands where the authenticator does, or has lost its place on the same counter. */
  predicate InStep(w: World) {
    var c := w.helper.port.tally;
    w.helper.keyed ==>
      match w.stream.highest
      case None => c.roc == w.stream.seed && c.highestSeq.None?
      case Some(m) => m <= INDEX_MAX && c.roc == Roc(m) && c.highestSeq in {None, Some(Seq(m))}
  }

  /** A packet passed on is computed at its true index, and moves both alike. */
  lemma PacketInStep(w: World, index: nat, at: nat)
    requires InStep(w) && Passes(w, index) && Resumes(w, Arrives(index, at))
    ensures ComputedIndex(w.helper.port.tally, Seq(index)) == index
    ensures var c := Track(w.helper.port.tally, Seq(index));
            var m := Max(w.stream.highest, index);
            c.roc == Roc(m) && c.highestSeq == Some(Seq(m))
  {
    var c := w.helper.port.tally;
    if c.highestSeq.None? {
      IndexParts(c.roc, Seq(index));
      assert Index(c.roc, Seq(index)) == index;
      Tracking.FoundAtCounter(c, index);
    }
  }

  /** No other turn moves the tracker, except that a key hand-out or a reset clears its place. */
  lemma OtherTurnsLeaveTracker(h: Helper, step: Step)
    requires !step.Authenticated? && HelperRuns.After(h, step).keyed
    ensures var c, d := h.port.tally, HelperRuns.After(h, step).port.tally;
            var event := Next(h, step).1;
            if event.HandedKey? then d.roc == event.candidate && d.highestSeq.None?
            else h.keyed && d.roc == c.roc && d.highestSeq in {None, c.highestSeq}
  {
    match step
    case KeyRequested(_) =>
    case TickLooks =>
    case TickDecides(_, _) =>
    case TickSwitches(_) =>
    case KeyRemoved =>
    case FloorMoves =>
    case SearchRestarts =>
    case KeyForgotten =>
    case StartRead =>
    case TornDown =>
    case StopRead =>
    case FlushEnded =>
    case PipelineFailed =>
    case SignalReceived =>
  }

  lemma InStepStays(w: World, m: Move)
    requires InStep(w) && Resumes(w, m)
    ensures InStep(After(w, m))
  {
    match m
    case Turn(step) =>
      if !step.Authenticated? && HelperRuns.After(w.helper, step).keyed {
        OtherTurnsLeaveTracker(w.helper, step);
      }
    case Arrives(index, at) =>
      if Passes(w, index) {
        PacketInStep(w, index, at);
      }
  }

  function Opening(ssrc: nat, floor: Option<nat>, from: Option<int>, every: int): World {
    World(Rebuilt(Started(ssrc, floor, from, every)), Stream(0, None))
  }

  function Before(w: World, ms: seq<Move>, i: nat): World
    requires i <= |ms|
  {
    Run(After, w, ms[..i])
  }

  /** Every loss of place is made good by the first packet after it. */
  predicate AlwaysResumes(w: World, ms: seq<Move>, n: nat)
    requires n <= |ms|
  {
    forall m :: 0 <= m < n ==> Resumes(Before(w, ms, m), ms[m])
  }

  lemma AlwaysInStep(w: World, ms: seq<Move>, n: nat)
    requires InStep(w) && n <= |ms| && AlwaysResumes(w, ms, n)
    ensures InStep(Before(w, ms, n))
  {
    forall t, l | InStep(t) && Resumes(t, l)
      ensures InStep(After(t, l))
    {
      InStepStays(t, l);
    }
    assert ms[..0] == [];
    Keeps(After, InStep, Resumes, w, ms, 0, n);
  }

  predicate AnyMove(w: World, m: Move) {
    true
  }

  lemma MoveKeepsFloor(w: World, m: Move, x: nat)
    ensures Remembers(w.helper, x) ==> Remembers(After(w, m).helper, x)
    ensures FloorAtLeast(w.helper, x) ==> FloorAtLeast(After(w, m).helper, x)
  {
    match m
    case Turn(step) => FloorStep(w.helper, step, x);
    case Arrives(index, at) => FloorStep(w.helper, Heard(index, at), x);
  }

  lemma MemoryAndFloorStay(w: World, ms: seq<Move>, i: nat, n: nat, x: nat)
    requires i <= n <= |ms|
    ensures Remembers(Before(w, ms, i).helper, x) ==> Remembers(Before(w, ms, n).helper, x)
    ensures FloorAtLeast(Before(w, ms, i).helper, x) ==> FloorAtLeast(Before(w, ms, n).helper, x)
  {
    var memory, floor := (t: World) => Remembers(t.helper, x), (t: World) => FloorAtLeast(t.helper, x);
    forall t, l
      ensures memory(t) ==> memory(After(t, l))
      ensures floor(t) ==> floor(After(t, l))
    {
      MoveKeepsFloor(t, l, x);
    }
    if Remembers(Before(w, ms, i).helper, x) {
      Keeps(After, memory, AnyMove, w, ms, i, n);
    }
    if FloorAtLeast(Before(w, ms, i).helper, x) {
      Keeps(After, floor, AnyMove, w, ms, i, n);
    }
  }

  // ---------------------------------------------------------------- never too high

  /**
   * A packet that finds a lost place has no earlier counter than the one kept; and the
   * authenticator does not go round.
   */
  predicate NotEarly(w: World, m: Move) {
    m.Arrives? && Passes(w, m.index) ==>
      && (w.stream.highest.Some? ==> !GoesRound(w.stream.highest.value, Seq(m.index)))
      && (LostPlace(w) ==> w.helper.port.tally.roc <= Roc(m.index))
  }

  /** The tracker is not ahead of the authenticator. */
  predicate NotAhead(w: World) {
    var c := w.helper.port.tally;
    w.helper.keyed ==>
      match w.stream.highest
      case None => c.roc == w.stream.seed && c.highestSeq.None?
      case Some(m) => m <= INDEX_MAX && (c.highestSeq.Some? ==>
          c.highestSeq.value < SEQ_MODULO && Index(c.roc, c.highestSeq.value) <= m)
  }

  lemma SameCounterOrLater(roc: nat, t: nat)
    ensures Index(roc, Seq(t)) <= t <==> roc <= Roc(t)
    ensures Index(roc, Seq(t)) == t <==> roc == Roc(t)
  {
    assert t == Index(Roc(t), Seq(t));
  }

  lemma ComputedAtMost(w: World, index: nat, at: nat)
    requires NotAhead(w) && Passes(w, index) && NotEarly(w, Arrives(index, at))
    ensures ComputedIndex(w.helper.port.tally, Seq(index)) <= index
    ensures var c := Track(w.helper.port.tally, Seq(index));
            c.highestSeq.Some? && c.highestSeq.value < SEQ_MODULO
            && Index(c.roc, c.highestSeq.value) <= Max(w.stream.highest, index)
  {
    var c := w.helper.port.tally;
    if c.highestSeq.None? {
      SameCounterOrLater(c.roc, index);
      Tracking.FoundAtCounter(c, index);
    } else {
      EstimateIsMonotone(Index(c.roc, c.highestSeq.value), w.stream.highest.value, Seq(index));
    }
  }

  lemma TurnKeepsNotAhead(w: World, step: Step)
    requires NotAhead(w)
    ensures NotAhead(After(w, Turn(step)))
  {
    if !step.Authenticated? && HelperRuns.After(w.helper, step).keyed {
      OtherTurnsLeaveTracker(w.helper, step);
    }
  }

  /** A packet passed on moves the helper's tracker and the authenticator's maximum, and nothing else here. */
  lemma ArrivalMoves(w: World, index: nat, at: nat)
    requires Passes(w, index)
    ensures var next := After(w, Arrives(index, at));
            var c, d := Track(w.helper.port.tally, Seq(index)), next.helper.port.tally;
            && next.helper.keyed && next.stream == w.stream.(highest := Some(Max(w.stream.highest, index)))
            && d.roc == c.roc && d.highestSeq == c.highestSeq
            && next.helper.port.floor == w.helper.port.floor
  {
  }

  lemma NotAheadStays(w: World, m: Move)
    requires NotAhead(w) && NotEarly(w, m)
    ensures NotAhead(After(w, m))
  {
    match m
    case Turn(step) => TurnKeepsNotAhead(w, step);
    case Arrives(index, at) =>
      if Passes(w, index) {
        ComputedAtMost(w, index, at);
        ArrivalMoves(w, index, at);
      }
  }

  predicate NeverEarly(w: World, ms: seq<Move>, n: nat)
    requires n <= |ms|
  {
    forall m :: 0 <= m < n ==> NotEarly(Before(w, ms, m), ms[m])
  }

  lemma NeverAhead(w: World, ms: seq<Move>, n: nat)
    requires NotAhead(w) && n <= |ms| && NeverEarly(w, ms, n)
    ensures NotAhead(Before(w, ms, n))
  {
    forall t, l | NotAhead(t) && NotEarly(t, l)
      ensures NotAhead(After(t, l))
    {
      NotAheadStays(t, l);
    }
    assert ms[..0] == [];
    Keeps(After, NotAhead, NotEarly, w, ms, 0, n);
  }

  /** While no place is found by a packet of an earlier counter, whatever is taken lies above the floor. */
  lemma TakenLiesAboveFloor(w: World, ms: seq<Move>, j: nat)
    requires NotAhead(w) && j < |ms| && NeverEarly(w, ms, j + 1) && Takes(Before(w, ms, j), ms[j])
    ensures AboveFloor(Before(w, ms, j).helper.port.floor, ms[j].index)
  {
    NeverAhead(w, ms, j);
    var b := Before(w, ms, j);
    ComputedAtMost(b, ms[j].index, ms[j].at);
    FloorStep(b.helper, Heard(ms[j].index, ms[j].at), 0);
  }

  // ---------------------------------------------------------------- never too low

  /**
   * A packet that finds a lost place is computed no lower than itself, nor than the highest one
   * before it; and the helper does not go round.
   */
  predicate NotLate(w: World, m: Move) {
    m.Arrives? && Passes(w, m.index) ==>
      var c := w.helper.port.tally;
      && !GoesRound(LocalIndex(c, Seq(m.index)), Seq(m.index))
      && (LostPlace(w) ==> Max(w.stream.highest, m.index) <= Index(c.roc, Seq(m.index)))
  }

  /** The tracker is not behind the authenticator. */
  predicate NotBehind(w: World) {
    var c := w.helper.port.tally;
    w.helper.keyed ==>
      match w.stream.highest
      case None => c.roc == w.stream.seed && c.highestSeq.None?
      case Some(m) => c.roc <= ROC_MAX && (c.highestSeq.Some? ==>
          c.highestSeq.value < SEQ_MODULO && m <= Index(c.roc, c.highestSeq.value))
  }

  lemma ComputedAtLeast(w: World, index: nat, at: nat)
    requires NotBehind(w) && Passes(w, index) && NotLate(w, Arrives(index, at))
    ensures index <= ComputedIndex(w.helper.port.tally, Seq(index))
    ensures var c := Track(w.helper.port.tally, Seq(index));
            && c.roc <= ROC_MAX && c.highestSeq.Some? && c.highestSeq.value < SEQ_MODULO
            && Max(w.stream.highest, index) <= Index(c.roc, c.highestSeq.value)
  {
    var c := w.helper.port.tally;
    PortLaws.TrackingStaysInRange(c, Seq(index));
    if c.highestSeq.None? {
      IndexParts(c.roc, Seq(index));
      Tracking.FoundAtCounter(c, index);
    } else {
      IndexParts(c.roc, c.highestSeq.value);
      EstimateIsMonotone(w.stream.highest.value, Index(c.roc, c.highestSeq.value), Seq(index));
    }
  }

  lemma TurnKeepsNotBehind(w: World, step: Step)
    requires NotBehind(w)
    ensures NotBehind(After(w, Turn(step)))
  {
    if !step.Authenticated? && HelperRuns.After(w.helper, step).keyed {
      OtherTurnsLeaveTracker(w.helper, step);
    }
  }

  lemma NotBehindStays(w: World, m: Move)
    requires NotBehind(w) && NotLate(w, m)
    ensures NotBehind(After(w, m))
  {
    match m
    case Turn(step) => TurnKeepsNotBehind(w, step);
    case Arrives(index, at) =>
      if Passes(w, index) {
        ComputedAtLeast(w, index, at);
        ArrivalMoves(w, index, at);
      }
  }

  predicate NeverLate(w: World, ms: seq<Move>, n: nat)
    requires n <= |ms|
  {
    forall m :: 0 <= m < n ==> NotLate(Before(w, ms, m), ms[m])
  }

  lemma NeverBehind(w: World, ms: seq<Move>, n: nat)
    requires NotBehind(w) && n <= |ms| && NeverLate(w, ms, n)
    ensures NotBehind(Before(w, ms, n))
  {
    forall t, l | NotBehind(t) && NotLate(t, l)
      ensures NotBehind(After(t, l))
    {
      NotBehindStays(t, l);
    }
    assert ms[..0] == [];
    Keeps(After, NotBehind, NotLate, w, ms, 0, n);
  }

  /** While no place is found too low, the helper remembers whatever it takes at its true index or above. */
  lemma TakenIsRemembered(w: World, ms: seq<Move>, i: nat, n: nat)
    requires NotBehind(w) && i < n <= |ms| && NeverLate(w, ms, i + 1) && Takes(Before(w, ms, i), ms[i])
    ensures Remembers(Before(w, ms, n).helper, ms[i].index)
  {
    NeverBehind(w, ms, i);
    var b := Before(w, ms, i);
    ComputedAtLeast(b, ms[i].index, ms[i].at);
    FloorStep(b.helper, Heard(ms[i].index, ms[i].at), 0);
    RunStep(After, w, ms, i);
    MemoryAndFloorStay(w, ms, i + 1, n, ms[i].index);
  }

  // ---------------------------------------------------------------- never again

  /**
   * A packet taken is never taken again after its session was sealed, nor is any packet with a
   * lower true index: provided no lost place was found too low before it was taken, nor by a
   * packet of an earlier counter at any time.
   */
  lemma TrueIndexNeverTakenAgain(
      ssrc: nat, floor: Option<nat>, from: Option<int>, every: int, ms: seq<Move>, i: nat, e: nat, j: nat)
    requires i < e <= j < |ms|
    requires var w := Opening(ssrc, floor, from, every);
             && NeverLate(w, ms, i + 1) && NeverEarly(w, ms, j + 1) && Sealed(Before(w, ms, e).helper)
             && Takes(Before(w, ms, i), ms[i]) && Takes(Before(w, ms, j), ms[j])
    ensures ms[i].index < ms[j].index
  {
    var w := Opening(ssrc, floor, from, every);
    TakenIsRemembered(w, ms, i, e);
    MemoryAndFloorStay(w, ms, e, j, ms[i].index);
    TakenLiesAboveFloor(w, ms, j);
  }

  /**
   * And across processes: let a packet be taken, and the helper's maximum then be reported at move
   * `r` of the sessions that share the row. No helper given the floor read at a later move `k`, for
   * the same key, generation and epoch, takes that packet again, nor any with a lower true index.
   */
  lemma TrueIndexNeverTakenByAnother(
      first: World, ms: seq<Move>, i: nat, reportAt: nat,
      world: SessionFence.World, rs: seq<SessionFence.Move>, r: nat, k: nat,
      reported: StreamRow.PacketIndex48, key: StreamRow.Key, epoch: Option<int>,
      from: Option<int>, every: int, later: seq<Move>, j: nat)
    requires NotBehind(first) && i < reportAt <= |ms| && NeverLate(first, ms, i + 1)
    requires Takes(Before(first, ms, i), ms[i])
    requires Before(first, ms, reportAt).helper.port.tally.highestIndex == Some(reported)
    requires SessionFence.Opening(world) && r < k <= |rs|
    requires SessionFence.ReportsAt(world, rs, r, reported, key, epoch)
    requires var last := Run(SessionFence.After, world, rs[..k]).row;
             var w := Opening(key.ssrc, StreamRow.ReadFloor(last, key.ssrc, key.fingerprint), from, every);
             && FloorHistory.IsFor(last, key) && last.epoch == epoch
             && j < |later| && NeverEarly(w, later, j + 1) && Takes(Before(w, later, j), later[j])
    ensures ms[i].index < later[j].index
  {
    var last := Run(SessionFence.After, world, rs[..k]).row;
    var floor := StreamRow.ReadFloor(last, key.ssrc, key.fingerprint);
    var w := Opening(key.ssrc, floor, from, every);
    TakenIsRemembered(first, ms, i, reportAt);
    var ws := SessionFence.SinceTheReport(world, rs, r, k, reported, key, epoch);
    FloorHistory.CompletedReportHolds(Run(SessionFence.After, world, rs[..r]).row, reported, key, epoch, ws);
    PortLaws.StartedIsSane(key.ssrc, floor, from, every);
    assert later[..0] == [];
    MemoryAndFloorStay(w, later, 0, j, reported);
    TakenLiesAboveFloor(w, later, j);
  }
}
