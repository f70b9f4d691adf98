/**
 * What the helpers reported against what was counted of it: a report that arrives when its
 * helper has been replaced is dropped.
 */
module SupervisedReports {
  import opened ByteCounting
  import opened HelperFrames
  import opened Runs
  import opened SupervisedCounts
  import opened TrafficMetrics
  import opened Wrappers
  import StreamMetadata
  import R = SupervisorRuns
  import S = SupervisorSpec

  predicate IsStatsOf(i: R.Input, session: nat) {
    i.event.FrameArrived? && i.event.session == session && i.event.frame.Stats?
  }

  /** What a process reported last, whichever was current when that arrived. */
  function LastReported(inputs: seq<R.Input>, session: nat): nat {
    if inputs == [] then 0
    else
      var init, i := inputs[..|inputs| - 1], inputs[|inputs| - 1];
      if IsStatsOf(i, session) then i.event.frame.inputBytes else LastReported(init, session)
  }

  /** The event is a report, and its bytes are counted. */
  predicate IsCounted(p: R.Plant, i: R.Input) {
    && i.event.FrameArrived? && i.event.frame.Stats?
    && S.CountedBytes(i.event.frame.inputBytes) in R.Handle(p, i).1
  }

  function PlantAfter(t: S.Timeouts, inputs: seq<R.Input>): R.Plant {
    Run(R.After, R.NewPlant(t), inputs)
  }

  /** The last of a process's reports to be counted. */
  function LastCounted(t: S.Timeouts, inputs: seq<R.Input>, session: nat): nat {
    if inputs == [] then 0
    else
      var init, i := inputs[..|inputs| - 1], inputs[|inputs| - 1];
      if IsStatsOf(i, session) && IsCounted(PlantAfter(t, init), i) then i.event.frame.inputBytes
      else LastCounted(t, init, session)
  }

  /** Added up over the first `n` processes. */
  function AllReported(inputs: seq<R.Input>, n: nat): nat {
    if n == 0 then 0 else AllReported(inputs, n - 1) + LastReported(inputs, n - 1)
  }

  function AllCounted(t: S.Timeouts, inputs: seq<R.Input>, n: nat): nat {
    if n == 0 then 0 else AllCounted(t, inputs, n - 1) + LastCounted(t, inputs, n - 1)
  }

  /** A report comes only from a process that has been spawned. */
  predicate FromSpawned(t: S.Timeouts, inputs: seq<R.Input>) {
    forall k :: 0 <= k < |inputs| && inputs[k].event.FrameArrived? && inputs[k].event.frame.Stats? ==>
      inputs[k].event.session < PlantAfter(t, inputs[..k]).next
  }

  /** A report that comes too late to be counted, with more in it than was counted before. */
  predicate IsLate(t: S.Timeouts, inputs: seq<R.Input>, k: nat) {
    && k < |inputs| && inputs[k].event.FrameArrived? && inputs[k].event.frame.Stats?
    && !IsCounted(PlantAfter(t, inputs[..k]), inputs[k])
    && inputs[k].event.frame.inputBytes > LastCounted(t, inputs[..k], inputs[k].event.session)
  }

  // ---------------------------------------------------------------- what is counted is the trace's

  lemma CountedIsTraced(p: R.Plant, i: R.Input, port: nat)
    ensures Counted(p, i, port) ==
            if S.Spawned(p.next) in R.Handle(p, i).1 then [Starting(port)]
            else if IsCounted(p, i) then [Step.Stats(port, i.event.frame.inputBytes)] else []
    ensures IsCounted(p, i) ==> S.Spawned(p.next) !in R.Handle(p, i).1
    ensures IsCounted(p, i) ==> p.supervisor.helper == Some(i.event.session) && !p.supervisor.state.Terminated?
  {
    if i.event.FrameArrived? {
      var a := R.Answering(p, i.answers);
      S.FramesSpawnNothing(p.supervisor, p.timeouts, i.event.frame, i.event.session, a, p.next);
      if IsCounted(p, i) {
        CountedIsCurrent(p.supervisor, p.timeouts, i.event.frame, i.event.session, a);
      }
    }
  }

  /** One event moves at most the count of the process it comes from. */
  lemma {:induction false} CountMoves(t: S.Timeouts, init: seq<R.Input>, i: R.Input, n: nat)
    ensures AllCounted(t, init + [i], n) == AllCounted(t, init, n) +
            if IsCounted(PlantAfter(t, init), i) && i.event.session < n
            then i.event.frame.inputBytes - LastCounted(t, init, i.event.session) else 0
  {
    assert (init + [i])[..|init|] == init;
    if n == 0 {
    } else {
      CountMoves(t, init, i, n - 1);
    }
  }

  lemma LastReportsMoves(steps: seq<Step>, more: seq<Step>, port: nat)
    requires |more| <= 1
    ensures LastReports(steps + more, port) ==
            if more == [] || !more[0].Stats? || more[0].port != port then LastReports(steps, port)
            else LastReports(steps, port) - Current(steps, port) + more[0].inputBytes
  {
    if more == [] {
      assert steps + more == steps;
    } else {
      assert (steps + more)[..|steps|] == steps;
      SplitsAtSession(steps, port);
    }
  }

  /** The trace's last reports are the processes' last counted ones. */
  predicate Tallies(t: S.Timeouts, inputs: seq<R.Input>, port: nat) {
    var p, trace := PlantAfter(t, inputs), Trace(t, inputs, port);
    && LastReports(trace, port) == AllCounted(t, inputs, p.next)
    && (p.supervisor.helper.Some? ==> Current(trace, port) == LastCounted(t, inputs, p.supervisor.helper.value))
  }

  lemma {:induction false} UnspawnedUncounted(t: S.Timeouts, inputs: seq<R.Input>, session: nat)
    requires session >= PlantAfter(t, inputs).next
    ensures LastCounted(t, inputs, session) == 0
  {
    if inputs == [] {
    } else {
      var init, i := inputs[..|inputs| - 1], inputs[|inputs| - 1];
      R.AlwaysSound(t, init);
      CountedIsTraced(PlantAfter(t, init), i, 0);
      UnspawnedUncounted(t, init, session);
    }
  }

  /** The count of a process just spawned is nothing, and the others' counts stay. */
  lemma SpawnCountsNothing(t: S.Timeouts, init: seq<R.Input>, i: R.Input)
    requires var p := PlantAfter(t, init); !IsCounted(p, i)
    ensures var n := PlantAfter(t, init).next;
            && AllCounted(t, init + [i], n + 1) == AllCounted(t, init, n)
            && LastCounted(t, init + [i], n) == 0
  {
    var n := PlantAfter(t, init).next;
    CountMoves(t, init, i, n);
    UnspawnedUncounted(t, init, n);
    LastCountedMoves(t, init, i, n);
  }

  lemma SpawnTracesNothing(trace: seq<Step>, port: nat)
    ensures LastReports(trace + [Starting(port)], port) == LastReports(trace, port)
    ensures Current(trace + [Starting(port)], port) == 0
  {
    LastReportsMoves(trace, [Starting(port)], port);
    CurrentMoves(trace, [Starting(port)], port);
  }

  lemma TalliesAfterSpawn(t: S.Timeouts, init: seq<R.Input>, i: R.Input, port: nat)
    requires Tallies(t, init, port) && S.Spawned(PlantAfter(t, init).next) in R.Handle(PlantAfter(t, init), i).1
    ensures Tallies(t, init + [i], port)
  {
    var p := PlantAfter(t, init);
    R.AlwaysSound(t, init);
    R.SpawnedIsHelper(p, i);
    CountedIsTraced(p, i, port);
    OneMoreEvent(t, init, i, port);
    SpawnCountsNothing(t, init, i);
    SpawnTracesNothing(Trace(t, init, port), port);
  }

  lemma OneMoreEvent(t: S.Timeouts, init: seq<R.Input>, i: R.Input, port: nat)
    ensures PlantAfter(t, init + [i]) == R.After(PlantAfter(t, init), i)
    ensures Trace(t, init + [i], port) == Trace(t, init, port) + Counted(PlantAfter(t, init), i, port)
  {
    assert (init + [i])[..|init|] == init;
  }

  lemma LastCountedMoves(t: S.Timeouts, init: seq<R.Input>, i: R.Input, session: nat)
    ensures LastCounted(t, init + [i], session) ==
            if IsStatsOf(i, session) && IsCounted(PlantAfter(t, init), i) then i.event.frame.inputBytes
            else LastCounted(t, init, session)
  {
    assert (init + [i])[..|init|] == init;
  }

  lemma TalliesAfterOther(t: S.Timeouts, init: seq<R.Input>, i: R.Input, port: nat)
    requires Tallies(t, init, port) && S.Spawned(PlantAfter(t, init).next) !in R.Handle(PlantAfter(t, init), i).1
    ensures Tallies(t, init + [i], port)
  {
    var p, trace := PlantAfter(t, init), Trace(t, init, port);
    R.AlwaysSound(t, init);
    R.HelperIsKept(p, i);
    CountedIsTraced(p, i, port);
    OneMoreEvent(t, init, i, port);
    CountMoves(t, init, i, p.next);
    LastReportsMoves(trace, Counted(p, i, port), port);
    CurrentMoves(trace, Counted(p, i, port), port);
    if p.supervisor.helper.Some? {
      LastCountedMoves(t, init, i, p.supervisor.helper.value);
    }
  }

  lemma CurrentMoves(steps: seq<Step>, more: seq<Step>, port: nat)
    requires |more| <= 1
    ensures Current(steps + more, port) ==
            if more == [] then Current(steps, port)
            else if more[0] == Starting(port) then 0
            else if more[0].Stats? && more[0].port == port then more[0].inputBytes else Current(steps, port)
  {
    if more == [] {
      assert steps + more == steps;
    } else {
      assert (steps + more)[..|steps|] == steps;
    }
  }

  lemma {:induction false} AlwaysTallies(t: S.Timeouts, inputs: seq<R.Input>, port: nat)
    ensures Tallies(t, inputs, port)
  {
    if inputs == [] {
    } else {
      var init, i := inputs[..|inputs| - 1], inputs[|inputs| - 1];
      assert inputs == init + [i];
      AlwaysTallies(t, init, port);
      if S.Spawned(PlantAfter(t, init).next) in R.Handle(PlantAfter(t, init), i).1 {
        TalliesAfterSpawn(t, init, i, port);
      } else {
        TalliesAfterOther(t, init, i, port);
      }
    }
  }

  // ---------------------------------------------------------------- what is not

  /** The process has been spawned, and its reports are not counted any more. */
  predicate Gone(p: R.Plant, session: nat) {
    R.Sound(p) && session < p.next && (p.supervisor.helper != Some(session) || p.supervisor.state.Terminated?)
  }

  lemma DroppedIsGone(p: R.Plant, i: R.Input)
    requires R.Sound(p) && i.event.FrameArrived? && i.event.frame.Stats? && i.event.session < p.next && !IsCounted(p, i)
    ensures Gone(p, i.event.session)
  {
  }

  lemma GoneStays(p: R.Plant, i: R.Input, session: nat)
    requires Gone(p, session)
    ensures Gone(R.After(p, i), session)
  {
    R.SoundStep(p, i);
    R.HandlingIsLawful(p, i);
  }

  lemma GoneForGood(t: S.Timeouts, inputs: seq<R.Input>, k: nat, n: nat)
    requires FromSpawned(t, inputs) && IsLate(t, inputs, k) && k <= n <= |inputs|
    ensures Gone(PlantAfter(t, inputs[..n]), inputs[k].event.session)
  {
    var session := inputs[k].event.session;
    R.AlwaysSound(t, inputs[..k]);
    DroppedIsGone(PlantAfter(t, inputs[..k]), inputs[k]);
    var inv, any := p => Gone(p, session), (p: R.Plant, i: R.Input) => true;
    forall p, i | inv(p) && any(p, i)
      ensures inv(R.After(p, i))
    {
      GoneStays(p, i, session);
    }
    Keeps(R.After, inv, any, R.NewPlant(t), inputs, k, n);
  }

  /** A process's last report is no lower than the one before. */
  lemma {:induction false} ReportsGrow(inputs: seq<R.Input>, i: R.Input, session: nat)
    requires GrowingCounts(inputs + [i]) && IsStatsOf(i, session)
    ensures LastReported(inputs, session) <= i.event.frame.inputBytes
  {
    if inputs == [] {
    } else {
      var init, last := inputs[..|inputs| - 1], inputs[|inputs| - 1];
      var all := inputs + [i];
      assert inputs == init + [last];
      assert all[|inputs| - 1] == last && all[|inputs|] == i;
      assert NoLess(all[|inputs| - 1].event, all[|inputs|].event);
      if !IsStatsOf(last, session) {
        GrowingWithout(init, last, i);
        ReportsGrow(init, i, session);
      }
    }
  }

  lemma GrowingWithout(init: seq<R.Input>, last: R.Input, i: R.Input)
    requires GrowingCounts(init + [last] + [i])
    ensures GrowingCounts(init + [i]) && GrowingCounts(init + [last])
  {
    var all := init + [last] + [i];
    forall j, k | 0 <= j < k < |init + [i]|
      ensures NoLess((init + [i])[j].event, (init + [i])[k].event)
    {
      assert NoLess(all[j].event, all[if k < |init| then k else k + 1].event);
    }
    forall j, k | 0 <= j < k < |init + [last]|
      ensures NoLess((init + [last])[j].event, (init + [last])[k].event)
    {
      assert NoLess(all[j].event, all[k].event);
    }
  }

  predicate LateFrom(t: S.Timeouts, inputs: seq<R.Input>, k: nat, session: nat) {
    IsLate(t, inputs, k) && inputs[k].event.session == session
  }

  ghost predicate NoneLateFrom(t: S.Timeouts, inputs: seq<R.Input>, session: nat) {
    forall k :: !LateFrom(t, inputs, k, session)
  }

  lemma LateBefore(t: S.Timeouts, init: seq<R.Input>, i: R.Input, k: nat, session: nat)
    ensures LateFrom(t, init + [i], k, session)
       <==> if k == |init| then LateFrom(t, init + [i], |init|, session) else LateFrom(t, init, k, session)
  {
    var all := init + [i];
    if k < |init| {
      assert all[..k] == init[..k] && all[k] == init[k];
    }
  }

  /** A process's last counted report is its last if and only if none came too late. */
  lemma {:induction false} CountedIffNoneLate(t: S.Timeouts, inputs: seq<R.Input>, session: nat)
    requires GrowingCounts(inputs) && FromSpawned(t, inputs)
    ensures LastCounted(t, inputs, session) <= LastReported(inputs, session)
    ensures LastCounted(t, inputs, session) == LastReported(inputs, session) <==> NoneLateFrom(t, inputs, session)
  {
    if inputs == [] {
    } else {
      var init, i := inputs[..|inputs| - 1], inputs[|inputs| - 1];
      assert inputs == init + [i];
      assert forall j :: 0 <= j < |init| ==> init[j] == inputs[j] && init[..j] == inputs[..j];
      CountedIffNoneLate(t, init, session);
      CountedOneMore(t, init, i, session);
    }
  }

  lemma NoneLateOneMore(t: S.Timeouts, init: seq<R.Input>, i: R.Input, session: nat)
    ensures NoneLateFrom(t, init + [i], session)
       <==> NoneLateFrom(t, init, session) && !LateFrom(t, init + [i], |init|, session)
  {
    forall k
      ensures LateFrom(t, init + [i], k, session)
         <==> if k == |init| then LateFrom(t, init + [i], |init|, session) else LateFrom(t, init, k, session)
    {
      LateBefore(t, init, i, k, session);
    }
    if NoneLateFrom(t, init + [i], session) {
      forall k
        ensures !LateFrom(t, init, k, session)
      {
        assert !LateFrom(t, init + [i], k, session);
      }
    }
  }

  lemma CountedOneMore(t: S.Timeouts, init: seq<R.Input>, i: R.Input, session: nat)
    requires GrowingCounts(init + [i]) && FromSpawned(t, init + [i])
    requires LastCounted(t, init, session) <= LastReported(init, session)
    requires LastCounted(t, init, session) == LastReported(init, session) <==> NoneLateFrom(t, init, session)
    ensures LastCounted(t, init + [i], session) <= LastReported(init + [i], session)
    ensures LastCounted(t, init + [i], session) == LastReported(init + [i], session)
       <==> NoneLateFrom(t, init + [i], session)
  {
    var all := init + [i];
    assert all[..|init|] == init && all[|init|] == i;
    LastCountedMoves(t, init, i, session);
    NoneLateOneMore(t, init, i, session);
    if IsStatsOf(i, session) {
      ReportsGrow(init, i, session);
      if IsCounted(PlantAfter(t, init), i) {
        CountedMeansNoneLate(t, init, i, session);
      }
    }
  }

  lemma CountedMeansNoneLate(t: S.Timeouts, init: seq<R.Input>, i: R.Input, session: nat)
    requires FromSpawned(t, init + [i]) && IsStatsOf(i, session) && IsCounted(PlantAfter(t, init), i)
    ensures NoneLateFrom(t, init, session) && !LateFrom(t, init + [i], |init|, session)
  {
    var all := init + [i];
    assert all[..|init|] == init;
    CountedIsTraced(PlantAfter(t, init), i, 0);
    forall k
      ensures !LateFrom(t, init, k, session)
    {
      if LateFrom(t, init, k, session) {
        LateBefore(t, init, i, k, session);
        GoneForGood(t, all, k, |init|);
        assert false;
      }
    }
  }

  ghost predicate AllBelow(p: nat -> bool, n: nat) {
    n == 0 || (AllBelow(p, n - 1) && p(n - 1))
  }

  lemma {:induction false} BelowGives(p: nat -> bool, n: nat, k: nat)
    requires k < n && AllBelow(p, n)
    ensures p(k)
  {
    if k == n - 1 {
    } else {
      BelowGives(p, n - 1, k);
    }
  }

  /** The processes none of whose reports came too late. */
  ghost function Timely(t: S.Timeouts, inputs: seq<R.Input>): nat -> bool {
    (session: nat) => NoneLateFrom(t, inputs, session)
  }

  /** None came too late from any of the first `n` processes. */
  ghost predicate NoneLateAmong(t: S.Timeouts, inputs: seq<R.Input>, n: nat) {
    AllBelow(Timely(t, inputs), n)
  }

  lemma {:induction false} AllCountedIffNoneLate(t: S.Timeouts, inputs: seq<R.Input>, n: nat)
    requires GrowingCounts(inputs) && FromSpawned(t, inputs)
    ensures AllCounted(t, inputs, n) <= AllReported(inputs, n)
    ensures AllCounted(t, inputs, n) == AllReported(inputs, n) <==> NoneLateAmong(t, inputs, n)
  {
    if n == 0 {
    } else {
      AllCountedIffNoneLate(t, inputs, n - 1);
      CountedIffNoneLate(t, inputs, n - 1);
    }
  }

  /** No report at all came too late. */
  ghost predicate NoneLate(t: S.Timeouts, inputs: seq<R.Input>) {
    forall k :: !IsLate(t, inputs, k)
  }

  lemma SpawnedGrows(t: S.Timeouts, inputs: seq<R.Input>, k: nat)
    requires k <= |inputs|
    ensures PlantAfter(t, inputs[..k]).next <= PlantAfter(t, inputs).next
  {
    var n := PlantAfter(t, inputs[..k]).next;
    var inv, any := (p: R.Plant) => n <= p.next, (p: R.Plant, i: R.Input) => true;
    Keeps(R.After, inv, any, R.NewPlant(t), inputs, k, |inputs|);
    assert inputs[..|inputs|] == inputs;
  }

  lemma AmongGives(t: S.Timeouts, inputs: seq<R.Input>, n: nat, session: nat)
    requires session < n && NoneLateAmong(t, inputs, n)
    ensures NoneLateFrom(t, inputs, session)
  {
    BelowGives(Timely(t, inputs), n, session);
  }

  lemma NoneLateGives(t: S.Timeouts, inputs: seq<R.Input>, session: nat)
    requires NoneLate(t, inputs)
    ensures NoneLateFrom(t, inputs, session)
  {
    forall k: nat
      ensures !LateFrom(t, inputs, k, session)
    {
      assert !IsLate(t, inputs, k);
    }
  }

  lemma {:induction false} NoneLateGivesAmong(t: S.Timeouts, inputs: seq<R.Input>, n: nat)
    requires NoneLate(t, inputs)
    ensures NoneLateAmong(t, inputs, n)
  {
    if n == 0 {
    } else {
      NoneLateGivesAmong(t, inputs, n - 1);
      NoneLateGives(t, inputs, n - 1);
    }
  }

  lemma AmongGivesNoneLate(t: S.Timeouts, inputs: seq<R.Input>)
    requires FromSpawned(t, inputs) && NoneLateAmong(t, inputs, PlantAfter(t, inputs).next)
    ensures NoneLate(t, inputs)
  {
    forall k: nat
      ensures !IsLate(t, inputs, k)
    {
      if IsLate(t, inputs, k) {
        SpawnedGrows(t, inputs, k);
        assert LateFrom(t, inputs, k, inputs[k].event.session);
        AmongGives(t, inputs, PlantAfter(t, inputs).next, inputs[k].event.session);
        assert false;
      }
    }
  }

  /** One port: its counted bytes are what its processes reported, unless a report came too late. */
  lemma PortIsReportedIffNoneLate(t: S.Timeouts, inputs: seq<R.Input>, port: nat)
    requires GrowingCounts(inputs) && FromSpawned(t, inputs)
    ensures var n := PlantAfter(t, inputs).next;
            && LastReports(Trace(t, inputs, port), port) <= AllReported(inputs, n)
            && (LastReports(Trace(t, inputs, port), port) == AllReported(inputs, n) <==> NoneLate(t, inputs))
  {
    AlwaysTallies(t, inputs, port);
    AllCountedIffNoneLate(t, inputs, PlantAfter(t, inputs).next);
    if NoneLate(t, inputs) {
      NoneLateGivesAmong(t, inputs, PlantAfter(t, inputs).next);
    } else if NoneLateAmong(t, inputs, PlantAfter(t, inputs).next) {
      AmongGivesNoneLate(t, inputs);
    }
  }

  // ---------------------------------------------------------------- all ports

  /** What every process of every one of these ports reported last. */
  function EverythingReported(t: S.Timeouts, runs: map<nat, seq<R.Input>>, ports: seq<nat>): nat
    requires forall port :: port in ports ==> port in runs
  {
    if ports == [] then 0
    else
      var port := ports[|ports| - 1];
      EverythingReported(t, runs, ports[..|ports| - 1]) + AllReported(runs[port], PlantAfter(t, runs[port]).next)
  }

  /** The steps of other ports leave a port's last reports alone. */
  lemma {:induction false} OfPortReports(steps: seq<Step>, port: nat)
    ensures LastReports(OfPort(steps, port), port) == LastReports(steps, port)
  {
    if steps == [] {
    } else {
      var init, step := steps[..|steps| - 1], steps[|steps| - 1];
      assert steps == init + [step];
      OfPortReports(init, port);
      OfPortRises(init, port);
      LastReportsMoves(init, [step], port);
      LastReportsMoves(OfPort(init, port), if OfPort(steps, port) == OfPort(init, port) then [] else [step], port);
    }
  }

  /** No report came too late on any of these ports. */
  ghost predicate NoneLateOn(t: S.Timeouts, runs: map<nat, seq<R.Input>>, ports: seq<nat>)
    requires forall port :: port in ports ==> port in runs
  {
    forall port :: port in ports ==> NoneLate(t, runs[port])
  }

  lemma {:induction false} PortsAreReportedIffNoneLate(
      steps: seq<Step>, ports: seq<nat>, t: S.Timeouts, runs: map<nat, seq<R.Input>>)
    requires (forall port :: port in ports ==> port in runs) && Interleaves(steps, t, runs)
    requires forall port :: port in runs ==> GrowingCounts(runs[port]) && FromSpawned(t, runs[port])
    ensures AllLastReports(steps, ports) <= EverythingReported(t, runs, ports)
    ensures AllLastReports(steps, ports) == EverythingReported(t, runs, ports) <==> NoneLateOn(t, runs, ports)
  {
    if ports == [] {
    } else {
      var init, port := ports[..|ports| - 1], ports[|ports| - 1];
      assert ports == init + [port];
      PortsAreReportedIffNoneLate(steps, init, t, runs);
      PortIsReportedIffNoneLate(t, runs[port], port);
      OfPortReports(steps, port);
    }
  }

  /**
   * Any number of supervisors, in every run of each and every interleaving of all of them with
   * publishes, failures and datagrams: the encrypted transport's bytes - published, under way and
   * pending - are exactly what every helper there ever was reported last, if and only if no report
   * of more than was counted came after its helper had been replaced.
   */
  lemma EverythingIsCountedIffNoneLate(hasClient: bool, steps: seq<Step>, ports: seq<nat>,
                                       t: S.Timeouts, runs: map<nat, seq<R.Input>>)
    requires Distinct(ports) && (forall port :: port in ports <==> port in runs) && Interleaves(steps, t, runs)
    requires forall port :: port in runs ==> GrowingCounts(runs[port]) && FromSpawned(t, runs[port])
    ensures Accounted(Run(After, Initial(hasClient), steps), SRTP_TRANSPORT) <= EverythingReported(t, runs, ports)
    ensures Accounted(Run(After, Initial(hasClient), steps), SRTP_TRANSPORT) == EverythingReported(t, runs, ports)
       <==> NoneLateOn(t, runs, ports)
  {
    SupervisedBytesAreConserved(hasClient, steps, ports, t, runs);
    PortsAreReportedIffNoneLate(steps, ports, t, runs);
  }

  // ---------------------------------------------------------------- a report that comes too late

  function Asking(now: int): S.Answers {
    S.Answers(now, StreamMetadata.HeldElsewhere, None, None, Some(None), Some(None), Some(0))
  }

  /** A helper reports 100, is ended for never becoming ready, and only then its 150 arrives. */
  function LateRun(t: S.Timeouts): seq<R.Input> {
    [R.Input(R.StartCalled, Asking(0)),
     R.Input(R.FrameArrived(Frame.Stats(100, 0), 0), Asking(1)),
     R.Input(R.TimerTicked, Asking(t.readyMs + 2)),
     R.Input(R.FrameArrived(Frame.Stats(150, 0), 0), Asking(t.readyMs + 3))]
  }

  /** The first helper has been spawned, and has not become ready. */
  predicate IsStarting(p: R.Plant, t: S.Timeouts) {
    && p.timeouts == t && p.next == 1 && p.supervisor.helper == Some(0) && p.supervisor.state.Starting?
    && p.supervisor.startedAtMs == 0
  }

  lemma StartSpawns(t: S.Timeouts)
    ensures IsStarting(R.After(R.NewPlant(t), LateRun(t)[0]), t)
    ensures S.Spawned(0) in R.Handle(R.NewPlant(t), LateRun(t)[0]).1
  {
  }

  lemma InTimeIsCounted(p: R.Plant, t: S.Timeouts)
    requires IsStarting(p, t)
    ensures IsStarting(R.After(p, LateRun(t)[1]), t) && IsCounted(p, LateRun(t)[1])
  {
  }

  lemma EndedInStarting(p: R.Plant, t: S.Timeouts)
    requires IsStarting(p, t)
    ensures var next := R.After(p, LateRun(t)[2]); next.next == 1 && next.supervisor.helper.None?
    ensures S.Spawned(p.next) !in R.Handle(p, LateRun(t)[2]).1
  {
  }

  lemma WithoutHelperUncounted(p: R.Plant, i: R.Input)
    requires p.supervisor.helper.None?
    ensures !IsCounted(p, i)
  {
    CountedIsTraced(p, i, 0);
  }

  lemma LateRunPlants(t: S.Timeouts)
    ensures var inputs := LateRun(t);
            && IsStarting(PlantAfter(t, inputs[..1]), t) && IsStarting(PlantAfter(t, inputs[..2]), t)
            && PlantAfter(t, inputs[..3]).supervisor.helper.None? && PlantAfter(t, inputs[..3]).next == 1
  {
    var inputs := LateRun(t);
    assert inputs[..0] == [];
    RunStep(R.After, R.NewPlant(t), inputs, 0);
    RunStep(R.After, R.NewPlant(t), inputs, 1);
    RunStep(R.After, R.NewPlant(t), inputs, 2);
    StartSpawns(t);
    InTimeIsCounted(PlantAfter(t, inputs[..1]), t);
    EndedInStarting(PlantAfter(t, inputs[..2]), t);
  }

  /** Of the 150 bytes reported, 100 are counted; the 50 of the late report never are. */
  lemma LateReportIsDropped(t: S.Timeouts)
    ensures var inputs := LateRun(t);
            && IsLate(t, inputs, 3) && LastReported(inputs, 0) == 150 && LastCounted(t, inputs[..3], 0) == 100
            && !IsCounted(PlantAfter(t, inputs[..3]), inputs[3])
  {
    var inputs := LateRun(t);
    LateRunPlants(t);
    InTimeIsCounted(PlantAfter(t, inputs[..1]), t);
    WithoutHelperUncounted(PlantAfter(t, inputs[..3]), inputs[3]);
    LastCountedMoves(t, inputs[..1], inputs[1], 0);
    LastCountedMoves(t, inputs[..2], inputs[2], 0);
    assert inputs[..2] == inputs[..1] + [inputs[1]] && inputs[..3] == inputs[..2] + [inputs[2]];
  }
}
