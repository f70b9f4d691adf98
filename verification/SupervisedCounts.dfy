/**
 * Where the byte counts come from: supervisors, each of which counts its current helper's
 * reports only. A helper's count never falls, so what is published is what was reported.
 */
module SupervisedCounts {
  import opened ByteCounting
  import opened HelperFrames
  import opened Runs
  import opened TrafficMetrics
  import opened Wrappers
  import R = SupervisorRuns
  import S = SupervisorSpec

  /** What one event of a port's supervisor does to the byte counts. */
  function Counted(p: R.Plant, i: R.Input, port: nat): seq<Step> {
    var effects := R.Handle(p, i).1;
    if S.Spawned(p.next) in effects then [Starting(port)]
    else if i.event.FrameArrived? && i.event.frame.Stats? && S.CountedBytes(i.event.frame.inputBytes) in effects
    then [Step.Stats(port, i.event.frame.inputBytes)]
    else []
  }

  /** And a whole run of it. */
  function Trace(t: S.Timeouts, inputs: seq<R.Input>, port: nat): seq<Step> {
    if inputs == [] then []
    else
      var init := inputs[..|inputs| - 1];
      Trace(t, init, port) + Counted(Run(R.After, R.NewPlant(t), init), inputs[|inputs| - 1], port)
  }

  predicate IsReport(i: R.Input, session: nat, inputBytes: nat) {
    i.event.FrameArrived? && i.event.session == session && i.event.frame.Stats? && i.event.frame.inputBytes == inputBytes
  }

  /** The later event, if it is a report of the same process, reports no less. */
  predicate NoLess(earlier: R.Event, later: R.Event) {
    (&& earlier.FrameArrived? && earlier.frame.Stats?
     && later.FrameArrived? && later.frame.Stats?
     && earlier.session == later.session)
    ==> earlier.frame.inputBytes <= later.frame.inputBytes
  }

  /** A process counts what it has received, and its frames arrive in order. */
  predicate GrowingCounts(inputs: seq<R.Input>) {
    forall i, j :: 0 <= i < j < |inputs| ==> NoLess(inputs[i].event, inputs[j].event)
  }

  /** No report on this port is below the one before it from the same helper. */
  predicate Rising(steps: seq<Step>, port: nat) {
    steps == []
    || var init, step := steps[..|steps| - 1], steps[|steps| - 1];
       && Rising(init, port)
       && (step.Stats? && step.port == port ==> step.inputBytes >= Current(init, port))
  }

  // ---------------------------------------------------------------- one supervisor

  /** The count last taken is the current helper's, or there is none to add to it. */
  predicate Attributed(p: R.Plant, inputs: seq<R.Input>, count: nat) {
    || count == 0
    || p.supervisor.helper.None?
    || exists k :: 0 <= k < |inputs| && IsReport(inputs[k], p.supervisor.helper.value, count)
  }

  /** Only the current helper's reports are counted, and counting one leaves it current. */
  lemma CountedIsCurrent(s: S.Supervisor, t: S.Timeouts, f: Frame, session: nat, a: S.Answers)
    requires f.Stats? && S.CountedBytes(f.inputBytes) in S.HandleFrame(s, t, f, session, a).1
    ensures s.helper == Some(session) && S.HandleFrame(s, t, f, session, a).0.helper == Some(session)
  {
  }

  lemma AttributedStep(p: R.Plant, inputs: seq<R.Input>, i: R.Input, port: nat, count: nat)
    requires R.Sound(p) && Attributed(p, inputs, count) && GrowingCounts(inputs + [i])
    ensures Counted(p, i, port) == [] ==> Attributed(R.After(p, i), inputs + [i], count)
    ensures Counted(p, i, port) != [] && Counted(p, i, port)[0].Stats? ==>
              && Counted(p, i, port)[0].inputBytes >= count
              && Attributed(R.After(p, i), inputs + [i], Counted(p, i, port)[0].inputBytes)
  {
    var all := inputs + [i];
    assert all[|inputs|] == i;
    R.HandlingIsLawful(p, i);
    if Counted(p, i, port) != [] && Counted(p, i, port)[0].Stats? {
      CountedIsCurrent(p.supervisor, p.timeouts, i.event.frame, i.event.session, R.Answering(p, i.answers));
      assert IsReport(all[|inputs|], i.event.session, i.event.frame.inputBytes);
      StillAttributed(p, inputs, i, count);
    } else if Counted(p, i, port) == [] {
      StillAttributed(p, inputs, i, count);
    }
  }

  lemma StillAttributed(p: R.Plant, inputs: seq<R.Input>, i: R.Input, count: nat)
    requires Attributed(p, inputs, count)
    ensures Attributed(p, inputs + [i], count)
  {
    if count != 0 && p.supervisor.helper.Some? {
      var k :| 0 <= k < |inputs| && IsReport(inputs[k], p.supervisor.helper.value, count);
      assert IsReport((inputs + [i])[k], p.supervisor.helper.value, count);
    }
  }

  lemma {:induction false} TraceRises(t: S.Timeouts, inputs: seq<R.Input>, port: nat)
    requires GrowingCounts(inputs)
    ensures Rising(Trace(t, inputs, port), port)
    ensures Attributed(Run(R.After, R.NewPlant(t), inputs), inputs, Current(Trace(t, inputs, port), port))
  {
    if inputs == [] {
    } else {
      var init, i := inputs[..|inputs| - 1], inputs[|inputs| - 1];
      assert inputs == init + [i];
      TraceRises(t, init, port);
      R.AlwaysSound(t, init);
      var p := Run(R.After, R.NewPlant(t), init);
      AttributedStep(p, init, i, port, Current(Trace(t, init, port), port));
      OneMoreStep(Trace(t, init, port), Counted(p, i, port), port);
    }
  }

  /** A start, or a report on this port no lower than the last. */
  predicate Follows(trace: seq<Step>, step: Step, port: nat) {
    step == Starting(port)
    || (step.Stats? && step.port == port && step.inputBytes >= Current(trace, port))
  }

  lemma OneStep(trace: seq<Step>, step: Step, port: nat)
    requires Rising(trace, port) && Follows(trace, step, port)
    ensures Rising(trace + [step], port)
    ensures Current(trace + [step], port) == if step.Stats? then step.inputBytes else 0
  {
    assert (trace + [step])[..|trace|] == trace;
  }

  lemma OneMoreStep(trace: seq<Step>, more: seq<Step>, port: nat)
    requires Rising(trace, port) && |more| <= 1
    requires more != [] ==> Follows(trace, more[0], port)
    ensures Rising(trace + more, port)
    ensures Current(trace + more, port)
         == if more == [] then Current(trace, port) else if more[0].Stats? then more[0].inputBytes else 0
  {
    if more == [] {
      assert trace + more == trace;
    } else {
      assert more == [more[0]];
      OneStep(trace, more[0], port);
    }
  }

  // ---------------------------------------------------------------- all of them

  /** A port's own steps in an interleaving. */
  function OfPort(steps: seq<Step>, port: nat): seq<Step> {
    if steps == [] then []
    else
      var step := steps[|steps| - 1];
      OfPort(steps[..|steps| - 1], port) + if (step.Starting? || step.Stats?) && step.port == port then [step] else []
  }

  lemma {:induction false} OfPortRises(steps: seq<Step>, port: nat)
    ensures Current(OfPort(steps, port), port) == Current(steps, port)
    ensures Rising(OfPort(steps, port), port) ==> Rising(steps, port)
  {
    if steps == [] {
    } else {
      var init, step := steps[..|steps| - 1], steps[|steps| - 1];
      OfPortRises(init, port);
      if (step.Starting? || step.Stats?) && step.port == port {
        assert OfPort(steps, port)[..|OfPort(init, port)|] == OfPort(init, port);
      } else {
        assert OfPort(steps, port) == OfPort(init, port);
      }
    }
  }

  lemma {:induction false} RisingAt(steps: seq<Step>, i: nat)
    requires i < |steps| && steps[i].Stats? && Rising(steps, steps[i].port)
    ensures steps[i].inputBytes >= Current(steps[..i], steps[i].port)
  {
    var init := steps[..|steps| - 1];
    if i == |steps| - 1 {
    } else {
      assert init[..i] == steps[..i] && init[i] == steps[i];
      RisingAt(init, i);
    }
  }

  /** The steps are what the ports' supervisors make of these events, interleaved, and whatever else happens. */
  predicate Interleaves(steps: seq<Step>, t: S.Timeouts, runs: map<nat, seq<R.Input>>) {
    && (forall i :: 0 <= i < |steps| && steps[i].Stats? ==> steps[i].port in runs)
    && (forall port :: port in runs ==> OfPort(steps, port) == Trace(t, runs[port], port))
  }

  lemma SupervisedCountsRise(steps: seq<Step>, t: S.Timeouts, runs: map<nat, seq<R.Input>>)
    requires Interleaves(steps, t, runs) && forall port :: port in runs ==> GrowingCounts(runs[port])
    ensures CountersRise(steps)
  {
    forall i | 0 <= i < |steps| && steps[i].Stats?
      ensures steps[i].inputBytes >= Current(steps[..i], steps[i].port)
    {
      var port := steps[i].port;
      TraceRises(t, runs[port], port);
      OfPortRises(steps, port);
      RisingAt(steps, i);
    }
  }

  /**
   * Any number of supervisors, in every run of each and every interleaving of all of them with
   * publishes, failures and datagrams: the encrypted transport's bytes - published, under way and
   * pending - are exactly the last reports that were counted of every helper there ever was.
   */
  lemma SupervisedBytesAreConserved(hasClient: bool, steps: seq<Step>, ports: seq<nat>,
                                    t: S.Timeouts, runs: map<nat, seq<R.Input>>)
    requires Distinct(ports) && OnPorts(steps, ports)
    requires Interleaves(steps, t, runs) && forall port :: port in runs ==> GrowingCounts(runs[port])
    ensures Accounted(Run(After, Initial(hasClient), steps), SRTP_TRANSPORT) == AllLastReports(steps, ports)
  {
    SupervisedCountsRise(steps, t, runs);
    ConservedIffCountersRise(hasClient, steps, ports);
  }
}
