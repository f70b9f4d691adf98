/**
 * Which counters a helper hands to its authenticator: the ones its search yields, in the order
 * it yields them, until a packet is accepted; and exactly when a session begins on another.
 */
module HandOuts {
  import opened Wrappers
  import opened PacketIndex
  import opened HelperFrames
  import opened PortSpec
  import opened HelperRuns
  import opened HelperSessions
  import opened CarriedSearch
  import opened Runs
  import PortLaws
  import RolloverSearch

  /** The search a session begins with: from its floor's counter, and where the far climb had got to. */
  function SearchFor(p: Port): RolloverSearch.State {
    RolloverSearch.Start(FloorRoc(p.floor), p.carried, p.floorEvery)
  }

  /** What a session has to offer once its search has been called so often: a seed comes before the search. */
  function Offered(s: RolloverSearch.State, seed: Option<nat>, calls: nat): nat {
    if seed.None? then RolloverSearch.Yield(s, calls)
    else if calls == 0 then seed.value
    else RolloverSearch.Yield(s, calls - 1)
  }

  /** A session's search at its beginning, with nothing credited. */
  predicate BeginsSearch(h: Helper, seed: Option<nat>) {
    IsUncredited(h) && SearchOf(h) == RolloverSearch.After(SearchFor(h.port), if seed.None? then 1 else 0)
  }

  /** And on trial the seed, or the search's first. */
  predicate Begins(h: Helper, seed: Option<nat>) {
    BeginsSearch(h, seed) && h.port.candidate == Offered(SearchFor(h.port), seed, 0)
  }

  predicate IsUncredited(h: Helper) {
    h.port.tally.keyAuthenticated == 0
  }

  /** A process begins so, and so does every session on a pipeline just built: a start's with its seed. */
  lemma RebuildsBegin(h: Helper, step: Step, ssrc: nat, floor: Option<nat>, from: Option<int>, every: int)
    ensures Begins(Rebuilt(Started(ssrc, floor, from, every)), None)
    ensures TearsDown(h, step) ==> Begins(After(h, step), if step.TornDown? then h.tick.seed else None)
  {
  }

  // ---------------------------------------------------------------- within a session

  /** The search, and the candidate on trial. */
  datatype OnOffer = OnOffer(search: RolloverSearch.State, candidate: nat)

  function TrialOf(h: Helper): OnOffer {
    OnOffer(SearchOf(h), h.port.candidate)
  }

  function NextTrial(t: OnOffer): OnOffer {
    OnOffer(RolloverSearch.Step(t.search).0, RolloverSearch.Step(t.search).1)
  }

  predicate AddsNothing(h: Helper, step: Step) {
    LeavesSearch(h, step) && AcceptsNothing(h, step)
  }

  predicate OnTrial(h: Helper, step: Step) {
    IsUncredited(h) && AddsNothing(h, step)
  }

  lemma RefusedLeaves(h: Helper, sn: Option<SequenceNumber>, at: nat)
    requires AcceptsNothing(h, Authenticated(sn, at))
    ensures TrialOf(After(h, Authenticated(sn, at))) == TrialOf(h)
    ensures IsUncredited(h) ==> IsUncredited(After(h, Authenticated(sn, at)))
  {
  }

  /** Without credit nothing but a call of the search changes the candidate. */
  lemma TrialStep(h: Helper, step: Step)
    requires OnTrial(h, step)
    ensures IsUncredited(After(h, step))
    ensures TrialOf(After(h, step)) == if CallsSearch(h, step) then NextTrial(TrialOf(h)) else TrialOf(h)
  {
    match step
    case KeyRequested(_) =>
    case Authenticated(sn, at) => RefusedLeaves(h, sn, at);
    case TickLooks =>
    case TickDecides(_, _) =>
    case TickSwitches(_) =>
    case KeyRemoved =>
    case FloorMoves =>
    case SearchRestarts =>
    case KeyForgotten =>
    case StartRead =>
    case TornDown =>
    case StopRead =>
    case FlushEnded =>
    case PipelineFailed =>
    case SignalReceived =>
  }

  lemma HandsOutCandidate(h: Helper, step: Step)
    requires IsUncredited(h) && Next(h, step).1.HandedKey?
    ensures Next(h, step).1.candidate == h.port.candidate
  {
  }

  lemma StaysUncredited(h: Helper, steps: seq<Step>, n: nat)
    requires IsUncredited(h) && n <= |steps| && KeepsSearch(h, steps, n) && NoneAccepted(h, steps, n)
    ensures IsUncredited(Before(h, steps, n))
  {
    forall t, l | IsUncredited(t) && AddsNothing(t, l)
      ensures IsUncredited(After(t, l))
    {
      TrialStep(t, l);
    }
    assert steps[..0] == [];
    Keeps(After, IsUncredited, AddsNothing, h, steps, 0, n);
  }

  /** What is on trial so many calls after this, with the search `k` calls on. */
  function TrialAt(s: RolloverSearch.State, k: nat, candidate: nat, calls: nat): OnOffer {
    OnOffer(RolloverSearch.After(s, k + calls), if calls == 0 then candidate else RolloverSearch.Yield(s, k + calls - 1))
  }

  lemma {:induction false} TrialsFollow(s: RolloverSearch.State, k: nat, candidate: nat, calls: nat)
    ensures Iterate(NextTrial, calls, TrialAt(s, k, candidate, 0)) == TrialAt(s, k, candidate, calls)
  {
    if calls == 0 {
    } else {
      TrialsFollow(s, k, candidate, calls - 1);
    }
  }

  lemma TrialsAreCounted(h: Helper, steps: seq<Step>, n: nat)
    requires IsUncredited(h) && n <= |steps| && KeepsSearch(h, steps, n) && NoneAccepted(h, steps, n)
    ensures TrialOf(Before(h, steps, n)) == Iterate(NextTrial, Calls(h, steps, n), TrialOf(h))
  {
    forall m | 0 <= m < n
      ensures OnTrial(Before(h, steps, m), steps[m])
    {
      StaysUncredited(h, steps, m);
    }
    forall t, l | OnTrial(t, l)
      ensures TrialOf(After(t, l)) == if CallsSearch(t, l) then NextTrial(TrialOf(t)) else TrialOf(t)
    {
      TrialStep(t, l);
    }
    Iterates(After, CallsSearch, TrialOf, NextTrial, OnTrial, h, steps, n);
  }

  /** So many calls on, what is on trial is that far into what the session offers. */
  lemma TrialIsOffered(h: Helper, seed: Option<nat>, calls: nat)
    requires BeginsSearch(h, seed)
    ensures Iterate(NextTrial, calls, TrialOf(h)).candidate
         == if calls == 0 then h.port.candidate else Offered(SearchFor(h.port), seed, calls)
  {
    TrialsFollow(SearchFor(h.port), if seed.None? then 1 else 0, h.port.candidate, calls);
  }

  /**
   * Whatever the two threads' interleaving: as long as nothing has been accepted in a session, the
   * key asked for is the one its search yielded last - call for call, however often it is asked for
   * in between - or, before the first call, the candidate the session began on.
   */
  lemma HandsOutItsSearch(h: Helper, seed: Option<nat>, steps: seq<Step>, j: nat)
    requires BeginsSearch(h, seed) && j < |steps| && KeepsSearch(h, steps, j) && NoneAccepted(h, steps, j)
    requires EventAt(h, steps, j).HandedKey?
    ensures EventAt(h, steps, j).candidate
         == if Calls(h, steps, j) == 0 then h.port.candidate
            else Offered(SearchFor(h.port), seed, Calls(h, steps, j))
    ensures Begins(h, seed) ==> EventAt(h, steps, j).candidate == Offered(SearchFor(h.port), seed, Calls(h, steps, j))
  {
    StaysUncredited(h, steps, j);
    TrialsAreCounted(h, steps, j);
    TrialIsOffered(h, seed, Calls(h, steps, j));
    HandsOutCandidate(Before(h, steps, j), steps[j]);
  }

  /** A key is handed out for this port's own datagrams; another's changes a count and nothing else. */
  lemma OwnKeyOnly(h: Helper, ssrc: nat)
    ensures Next(h, KeyRequested(ssrc)).1.HandedKey? <==> ssrc == h.port.ssrc
    ensures ssrc != h.port.ssrc ==>
              var c := h.port.tally;
              After(h, KeyRequested(ssrc)) == h.(port := h.port.(tally := c.(foreignSsrc := c.foreignSsrc + 1)))
  {
  }

  lemma SsrcIsKept(h: Helper, steps: seq<Step>, n: nat)
    requires n <= |steps|
    ensures Before(h, steps, n).port.ssrc == h.port.ssrc
  {
    var inv := (t: Helper) => t.port.ssrc == h.port.ssrc;
    forall t, l | inv(t)
      ensures inv(After(t, l))
    {
      SsrcStep(t, l);
    }
    Always(After, inv, h, steps[..n]);
  }

  lemma SsrcStep(h: Helper, step: Step)
    ensures After(h, step).port.ssrc == h.port.ssrc
  {
    match step
    case KeyRequested(_) =>
    case Authenticated(sn, at) => PortLaws.RecordLeaves(h.port, sn, at);
    case TickLooks =>
    case TickDecides(_, _) =>
    case TickSwitches(_) =>
    case KeyRemoved =>
    case FloorMoves =>
    case SearchRestarts =>
    case KeyForgotten =>
    case StartRead =>
    case TornDown =>
    case StopRead =>
    case FlushEnded =>
    case PipelineFailed =>
    case SignalReceived =>
  }

  predicate HandsOut(h: Helper, step: Step) {
    Next(h, step).1.HandedKey?
  }

  lemma RequestStep(h: Helper, step: Step)
    ensures After(h, step).port.keyRequests == h.port.keyRequests + if HandsOut(h, step) then 1 else 0
  {
    match step
    case KeyRequested(_) =>
    case Authenticated(sn, at) => PortLaws.RecordLeaves(h.port, sn, at);
    case TickLooks =>
    case TickDecides(_, _) =>
    case TickSwitches(_) =>
    case KeyRemoved =>
    case FloorMoves =>
    case SearchRestarts =>
    case KeyForgotten =>
    case StartRead =>
    case TornDown =>
    case StopRead =>
    case FlushEnded =>
    case PipelineFailed =>
    case SignalReceived =>
  }

  /** Hand-outs are announced as they are made: by the counter given, numbered from 0 over the process's life. */
  lemma HandOutsAreNumbered(h: Helper, steps: seq<Step>, n: nat)
    requires h.port.keyRequests == 0 && n < |steps| && steps[n].KeyRequested? && EventAt(h, steps, n).HandedKey?
    ensures RequestKey(Before(h, steps, n).port, steps[n].ssrc).2
         == [Trial(EventAt(h, steps, n).candidate, Count(After, HandsOut, h, steps[..n]))]
  {
    forall t, l | AnyStep(t, l)
      ensures RequestsOf(After(t, l)) == if HandsOut(t, l) then PlusOne(RequestsOf(t)) else RequestsOf(t)
    {
      RequestStep(t, l);
    }
    Iterates(After, HandsOut, RequestsOf, PlusOne, AnyStep, h, steps, n);
    PlusOneCounts(Count(After, HandsOut, h, steps[..n]));
  }

  function RequestsOf(h: Helper): nat {
    h.port.keyRequests
  }

  function PlusOne(n: nat): nat {
    n + 1
  }

  lemma PlusOneCounts(k: nat)
    ensures Iterate(PlusOne, k, 0) == k
  {
  }

  // ---------------------------------------------------------------- a seeded session

  /** The main loop is where it was: the step is the streaming thread's. */
  predicate IsStreaming(step: Step) {
    step.KeyRequested? || step.Authenticated?
  }

  predicate OnlyStreams(h: Helper, step: Step) {
    IsStreaming(step)
  }

  predicate AllStream(steps: seq<Step>, i: nat, n: nat)
    requires n <= |steps|
  {
    forall m :: i <= m < n ==> IsStreaming(steps[m])
  }

  /** The streaming thread leaves the main loop's place, and what the main loop alone writes. */
  lemma StreamStep(h: Helper, step: Step)
    requires IsStreaming(step)
    ensures var q := After(h, step);
            && q.tick == h.tick && q.port.floor == h.port.floor && q.port.confirmed == h.port.confirmed
            && SearchOf(q) == SearchOf(h) && SearchFor(q.port) == SearchFor(h.port)
  {
    if step.Authenticated? {
      PortLaws.RecordLeaves(h.port, step.sn, step.at);
    }
  }

  lemma MainLoopStands(h: Helper, steps: seq<Step>, i: nat, n: nat)
    requires i <= n <= |steps| && AllStream(steps, i, n)
    ensures var a, b := Before(h, steps, i), Before(h, steps, n);
            && b.tick == a.tick && b.port.floor == a.port.floor && b.port.confirmed == a.port.confirmed
            && SearchOf(b) == SearchOf(a) && SearchFor(b.port) == SearchFor(a.port)
  {
    var a := Before(h, steps, i);
    var inv := (t: Helper) =>
      && t.tick == a.tick && t.port.floor == a.port.floor && t.port.confirmed == a.port.confirmed
      && SearchOf(t) == SearchOf(a) && SearchFor(t.port) == SearchFor(a.port);
    forall t, l | inv(t) && OnlyStreams(t, l)
      ensures inv(After(t, l))
    {
      StreamStep(t, l);
    }
    Keeps(After, inv, OnlyStreams, h, steps, i, n);
  }

  /** What a start reads is what its session is seeded with. */
  lemma GrantBegins(read: Helper, granting: Helper)
    requires read.tick.AtRest? && MayStart(read.port) && granting.tick == After(read, StartRead).tick
    ensures var begun := After(granting, TornDown);
            && Begins(begun, if read.port.confirmed then Some(read.port.tally.roc) else None)
            && begun.port.mode.ProducingMode? && !begun.keyed
  {
    RebuildsBegin(granting, TornDown, 0, None, None, 1);
  }

  /**
   * A start read while the session is confirmed: the session it begins hands out the counter the
   * tracker stood on when it was read, before any of its search's. Read while it is not, only those.
   */
  lemma StartIsSeeded(h: Helper, steps: seq<Step>, i: nat, n: nat)
    requires i < n < |steps| && AllStream(steps, i + 1, n) && steps[n].TornDown?
    requires steps[i].StartRead? && Before(h, steps, i).tick.AtRest? && MayStart(Before(h, steps, i).port)
    ensures var read, begun := Before(h, steps, i).port, Before(h, steps, n + 1);
            && Begins(begun, if read.confirmed then Some(read.tally.roc) else None)
            && begun.port.mode.ProducingMode? && !begun.keyed
  {
    RunStep(After, h, steps, i);
    MainLoopStands(h, steps, i + 1, n);
    RunStep(After, h, steps, n);
    GrantBegins(Before(h, steps, i), Before(h, steps, n));
  }

  /** A search's first is its floor's counter. */
  lemma FirstIsFloor(p: Port)
    requires FloorRoc(p.floor) <= ROC_MAX
    ensures RolloverSearch.Yield(SearchFor(p), 0) == FloorRoc(p.floor)
  {
  }

  // ---------------------------------------------------------------- a session begun by a searching loss

  /** From where its search is restarted to where the key is forgotten: the streaming thread's steps alone. */
  predicate IsLoss(h: Helper, steps: seq<Step>, m: nat) {
    && h.tick.Restarting? && 1 <= m < |steps|
    && steps[0].SearchRestarts? && AllStream(steps, 1, m) && steps[m].KeyForgotten?
  }

  /** The step hands out another key than `first`. */
  predicate HandsOther(h: Helper, step: Step, first: nat) {
    Next(h, step).1.HandedKey? && Next(h, step).1.candidate != first
  }

  /** Every key handed out between the two is `c`. */
  predicate HandsOutOnly(h: Helper, steps: seq<Step>, n: nat, c: nat)
    requires n <= |steps|
  {
    forall i :: 1 <= i < n ==> !HandsOther(Before(h, steps, i), steps[i], c)
  }

  /** A key with credit for another counter than the candidate's, or none: what a request would find. */
  predicate OnOther(h: Helper, first: nat) {
    && h.port.candidate != first
    && h.port.tally.keyCandidate == Some(h.port.candidate) && h.port.tally.keyAuthenticated > 0
  }

  /** The candidate is the search's first still, or a key with credit has taken its place. */
  predicate Stood(h: Helper, first: nat, still: bool) {
    if still then h.port.candidate == first else OnOther(h, first)
  }

  /** A key that is not the candidate's is handed out on credit, and stays. */
  lemma LossStep(h: Helper, step: Step, first: nat, still: bool)
    requires IsStreaming(step) && Stood(h, first, still)
    ensures Stood(After(h, step), first, still && !HandsOther(h, step, first))
  {
  }

  lemma LossStands(h: Helper, steps: seq<Step>, n: nat, first: nat)
    requires 1 <= n <= |steps| && AllStream(steps, 1, n) && Before(h, steps, 1).port.candidate == first
    ensures Stood(Before(h, steps, n), first, HandsOutOnly(h, steps, n, first))
  {
    var inv, breaks := (t, still) => Stood(t, first, still), (t, l) => HandsOther(t, l, first);
    forall t, l, still | inv(t, still) && OnlyStreams(t, l)
      ensures inv(After(t, l), still && !breaks(t, l))
    {
      LossStep(t, l, first, still);
    }
    KeepsUntil(After, inv, OnlyStreams, breaks, h, steps, 1, n);
  }

  /**
   * The session a searching loss begins starts its search as every other does; and it starts on that
   * search's first counter if and only if no other was handed out while the loss was between putting
   * the search in place and forgetting the key - one that had credit, and is then on trial instead.
   */
  lemma LossBeginsIffNoneTorn(h: Helper, steps: seq<Step>, m: nat)
    requires IsLoss(h, steps, m)
    ensures var begun := Before(h, steps, m + 1);
            && BeginsSearch(begun, None)
            && (Begins(begun, None) <==>
                  HandsOutOnly(h, steps, m, RolloverSearch.Yield(SearchFor(begun.port), 0)))
  {
    assert steps[..0] == [];
    RunStep(After, h, steps, 0);
    RestartBegins(h);
    MainLoopStands(h, steps, 1, m);
    LossStands(h, steps, m, Before(h, steps, 1).port.candidate);
    RunStep(After, h, steps, m);
    ForgottenBegins(Before(h, steps, 1), Before(h, steps, m));
    var p, begun := Before(h, steps, 1).port, Before(h, steps, m + 1);
    assert Stood(Before(h, steps, m), p.candidate, HandsOutOnly(h, steps, m, p.candidate));
    assert SearchFor(begun.port) == SearchFor(p) && begun.port.candidate == Before(h, steps, m).port.candidate;
  }

  lemma RestartBegins(h: Helper)
    requires h.tick.Restarting?
    ensures var p := After(h, SearchRestarts).port;
            && After(h, SearchRestarts).tick.Forgetting?
            && p.search == RolloverSearch.After(SearchFor(p), 1)
            && p.candidate == RolloverSearch.Yield(SearchFor(p), 0)
  {
  }

  lemma ForgottenBegins(restarted: Helper, h: Helper)
    requires var p := restarted.port;
             SearchOf(restarted) == RolloverSearch.After(SearchFor(p), 1) && restarted.tick.Forgetting?
    requires h.tick == restarted.tick
    requires SearchOf(h) == SearchOf(restarted) && SearchFor(h.port) == SearchFor(restarted.port)
    ensures var begun := After(h, KeyForgotten);
            && BeginsSearch(begun, None) && SearchFor(begun.port) == SearchFor(h.port)
            && begun.port.candidate == h.port.candidate
  {
  }

  /**
   * Such a session, begun after a key for `c` was asked for in between: `c` is handed out again, and
   * its search's first counter - the floor's - not until the search comes round to it.
   */
  lemma TornLossBeginsOnOldKey(h: Helper, c: nat)
    requires Credited(h, c) && h.tick.Restarting? && FloorRoc(h.port.floor) <= ROC_MAX
    requires c != FloorRoc(h.port.floor)
    ensures var steps := [SearchRestarts, KeyRequested(h.port.ssrc), KeyForgotten, KeyRequested(h.port.ssrc)];
            && IsLoss(h, steps, 2) && EventAt(h, steps, 3) == HandedKey(c)
            && !Begins(Before(h, steps, 3), None)
            && Offered(SearchFor(Before(h, steps, 3).port), None, 0) == FloorRoc(h.port.floor)
  {
    var steps := [SearchRestarts, KeyRequested(h.port.ssrc), KeyForgotten, KeyRequested(h.port.ssrc)];
    assert steps[..0] == [];
    RunStep(After, h, steps, 0);
    RunStep(After, h, steps, 1);
    RunStep(After, h, steps, 2);
    FirstIsFloor(Before(h, steps, 3).port);
  }
}
