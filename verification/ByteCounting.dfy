/**
 * From the helpers' cumulative byte counts to the requests that publish them: every byte is
 * in a request that got through, in the one under way, or in a counter.
 */
module ByteCounting {
  import opened Wrappers
  import opened Runs
  import opened TrafficMetrics

  /** The last count reported on a port since its helper started. */
  function Baseline(last: map<nat, nat>, port: nat): nat {
    if port in last then last[port] else 0
  }

  function Delta(last: nat, inputBytes: nat): nat {
    if inputBytes >= last then inputBytes - last else inputBytes
  }

  /** A stats frame's bytes, recorded unless there are none. */
  function RecordDelta(l: Ledger, delta: nat): Ledger {
    if delta > 0 then Record(l, SRTP_TRANSPORT, delta) else l
  }

  /** What a transport keeps for its supervisors: the counts last reported, and the metrics. */
  class ByteMeter {
    const metrics: TrafficMetrics
    var lastInputBytes: map<nat, nat>

    constructor (metrics: TrafficMetrics)
      ensures this.metrics == metrics && lastInputBytes == map[]
    {
      this.metrics, lastInputBytes := metrics, map[];
    }

    /** A helper is starting: it counts from zero. */
    method OnStarting(port: nat)
      modifies this
      ensures lastInputBytes == old(lastInputBytes) - {port}
    {
      lastInputBytes := lastInputBytes - {port};
    }

    method OnStats(port: nat, inputBytes: nat)
      requires metrics.Valid()
      modifies this, metrics
      ensures metrics.Valid() && lastInputBytes == old(lastInputBytes)[port := inputBytes]
      ensures metrics.View()
           == RecordDelta(old(metrics.View()), Delta(Baseline(old(lastInputBytes), port), inputBytes))
    {
      var last := if port in lastInputBytes then lastInputBytes[port] else 0;
      var delta := if inputBytes >= last then inputBytes - last else inputBytes;
      lastInputBytes := lastInputBytes[port := inputBytes];
      if delta > 0 {
        metrics.RecordReceived(SRTP_TRANSPORT, delta);
      }
    }
  }

  // ---------------------------------------------------------------- runs

  /** The meter and the metrics, and the requests that got through. */
  datatype World = World(hasClient: bool, ledger: Ledger, last: map<nat, nat>, requests: seq<seq<Sample>>)

  datatype Step =
    | Starting(port: nat)
    | Stats(port: nat, inputBytes: nat)
    | Datagram(bytes: nat)
    | Serving(transport: Transport, value: bool)
    | Publish
    | Begins
    | Answered(ok: bool)

  function After(w: World, step: Step): World {
    match step
    case Starting(port) => w.(last := w.last - {port})
    case Stats(port, n) =>
      w.(last := w.last[port := n], ledger := RecordDelta(w.ledger, Delta(Baseline(w.last, port), n)))
    case Datagram(bytes) => w.(ledger := Record(w.ledger, UNENCRYPTED_TRANSPORT, bytes))
    case Serving(t, value) => w.(ledger := w.ledger.(serving := w.ledger.serving[t := value]))
    case Publish => w.(ledger := w.ledger.(waiting := w.ledger.waiting + 1))
    case Begins => w.(ledger := Begin(w.ledger, w.hasClient))
    case Answered(ok) =>
      w.(ledger := Complete(w.ledger, ok),
         requests := if ok && w.ledger.inFlight.Some? then w.requests + [w.ledger.inFlight.value] else w.requests)
  }

  function Initial(hasClient: bool): World {
    World(hasClient, Fresh(), map[], [])
  }

  function Published(requests: seq<seq<Sample>>, transport: Transport): nat {
    if requests == [] then 0
    else Published(requests[..|requests| - 1], transport) + Bytes(requests[|requests| - 1], transport)
  }

  /** Every byte of a transport, wherever it is. */
  function Accounted(w: World, transport: Transport): nat {
    Published(w.requests, transport) + Held(w.ledger, transport)
  }

  /** The bytes a step brings in. */
  function Arriving(w: World, step: Step, transport: Transport): nat {
    match step
    case Stats(port, n) => if transport == SRTP_TRANSPORT then Delta(Baseline(w.last, port), n) else 0
    case Datagram(bytes) => if transport == UNENCRYPTED_TRANSPORT then bytes else 0
    case _ => 0
  }

  ghost predicate Sound(w: World) {
    && WellFormed(w.ledger)
    && w.ledger.publishCount == |w.requests|
    && forall r :: r in w.requests ==> CoversTransports(r)
  }

  lemma StepIsSound(w: World, step: Step)
    requires Sound(w)
    ensures Sound(After(w, step))
  {
    match step
    case Begins => BeginKeepsOrder(w.ledger, w.hasClient);
    case Answered(ok) =>
      if w.ledger.inFlight.Some? && !ok {
        RestoreKeepsOrder(w.ledger.(inFlight := None), w.ledger.inFlight.value);
        RestoreCountsNothing(w.ledger.(inFlight := None), w.ledger.inFlight.value);
      }
    case _ =>
  }

  lemma {:induction false} RestoreCountsNothing(l: Ledger, samples: seq<Sample>)
    ensures Restore(l, samples).publishCount == l.publishCount
  {
    if samples == [] {
    } else {
      RestoreCountsNothing(l, samples[..|samples| - 1]);
    }
  }

  lemma AnswerAccounts(w: World, ok: bool, transport: Transport)
    ensures Accounted(After(w, Answered(ok)), transport) == Accounted(w, transport)
  {
    CompleteMovesBytes(w.ledger, ok, transport);
    if ok && w.ledger.inFlight.Some? {
      assert After(w, Answered(ok)).requests[..|w.requests|] == w.requests;
    }
  }

  /** Only what arrives changes how many bytes are accounted for; publishing never does. */
  lemma StepAccounts(w: World, step: Step, transport: Transport)
    requires Sound(w)
    ensures Accounted(After(w, step), transport) == Accounted(w, transport) + Arriving(w, step, transport)
  {
    match step
    case Stats(port, n) => RecordAddsBytes(w.ledger, SRTP_TRANSPORT, Delta(Baseline(w.last, port), n), transport);
    case Datagram(bytes) => RecordAddsBytes(w.ledger, UNENCRYPTED_TRANSPORT, bytes, transport);
    case Begins => BeginMovesBytes(w.ledger, w.hasClient, transport);
    case Answered(ok) => AnswerAccounts(w, ok, transport);
    case _ =>
  }

  /** Every request that gets through reports on both transports, zero or not, and is counted. */
  lemma EveryRequestReportsBoth(hasClient: bool, steps: seq<Step>)
    ensures Sound(Run(After, Initial(hasClient), steps))
  {
    forall w, step | Sound(w)
      ensures Sound(After(w, step))
    {
      StepIsSound(w, step);
    }
    SoundAtStart(hasClient);
    Always(After, Sound, Initial(hasClient), steps);
  }

  // ---------------------------------------------------------------- what the helpers reported

  /** The steps before the one that last started a helper on this port. */
  function BeforeSession(steps: seq<Step>, port: nat): (earlier: seq<Step>)
    ensures |earlier| <= |steps|
  {
    if steps == [] then []
    else
      var init := steps[..|steps| - 1];
      if steps[|steps| - 1] == Starting(port) then init else BeforeSession(init, port)
  }

  /** The last report of each helper a port has had, added up. */
  function LastReports(steps: seq<Step>, port: nat): nat
    decreases |steps|
  {
    if steps == [] then 0
    else
      var init, step := steps[..|steps| - 1], steps[|steps| - 1];
      if step.Stats? && step.port == port
      then step.inputBytes + LastReports(BeforeSession(init, port), port)
      else LastReports(init, port)
  }

  function AllLastReports(steps: seq<Step>, ports: seq<nat>): nat {
    if ports == [] then 0
    else AllLastReports(steps, ports[..|ports| - 1]) + LastReports(steps, ports[|ports| - 1])
  }

  /** What the port's present helper reported last. */
  function Current(steps: seq<Step>, port: nat): nat {
    if steps == [] then 0
    else
      var init, step := steps[..|steps| - 1], steps[|steps| - 1];
      if step == Starting(port) then 0
      else if step.Stats? && step.port == port then step.inputBytes
      else Current(init, port)
  }

  /** Counts that a helper reported and then reported less than. */
  function Forgotten(steps: seq<Step>): nat {
    if steps == [] then 0
    else
      var init, step := steps[..|steps| - 1], steps[|steps| - 1];
      Forgotten(init) +
      (if step.Stats? && step.inputBytes < Current(init, step.port) then Current(init, step.port) else 0)
  }

  function Datagrams(steps: seq<Step>): nat {
    if steps == [] then 0
    else
      var step := steps[|steps| - 1];
      Datagrams(steps[..|steps| - 1]) + (if step.Datagram? then step.bytes else 0)
  }

  /** No helper ever reports less than it did before. */
  predicate CountersRise(steps: seq<Step>) {
    forall i :: 0 <= i < |steps| && steps[i].Stats? ==> steps[i].inputBytes >= Current(steps[..i], steps[i].port)
  }

  predicate OnPorts(steps: seq<Step>, ports: seq<nat>) {
    forall i :: 0 <= i < |steps| && steps[i].Stats? ==> steps[i].port in ports
  }

  /** A port's total is its present helper's last report and what the helpers before it left. */
  lemma {:induction false} SplitsAtSession(steps: seq<Step>, port: nat)
    ensures LastReports(steps, port) == Current(steps, port) + LastReports(BeforeSession(steps, port), port)
  {
    if steps == [] {
    } else {
      SplitsAtSession(steps[..|steps| - 1], port);
    }
  }

  lemma {:induction false} ReportMovesOnePort(steps: seq<Step>, ports: seq<nat>)
    requires steps != [] && Distinct(ports)
    ensures var init, step := steps[..|steps| - 1], steps[|steps| - 1];
            AllLastReports(steps, ports) ==
            AllLastReports(init, ports) +
            (if step.Stats? && step.port in ports then step.inputBytes - Current(init, step.port) else 0)
  {
    if ports == [] {
    } else {
      var port := ports[|ports| - 1];
      ReportMovesOnePort(steps, ports[..|ports| - 1]);
      SplitsAtSession(steps[..|steps| - 1], port);
      assert ports == ports[..|ports| - 1] + [port];
    }
  }

  /** A world in which every byte of these steps is accounted for. */
  predicate Balances(w: World, steps: seq<Step>, ports: seq<nat>) {
    && Accounted(w, SRTP_TRANSPORT) == AllLastReports(steps, ports) + Forgotten(steps)
    && Accounted(w, UNENCRYPTED_TRANSPORT) == Datagrams(steps)
  }

  /** As long as the reports come from these ports. */
  ghost predicate Follows(w: World, steps: seq<Step>, ports: seq<nat>) {
    && Sound(w)
    && (forall port :: Baseline(w.last, port) == Current(steps, port))
    && (OnPorts(steps, ports) ==> Balances(w, steps, ports))
  }

  lemma CurrentStep(w: World, before: seq<Step>, step: Step)
    requires forall port :: Baseline(w.last, port) == Current(before, port)
    ensures forall port :: Baseline(After(w, step).last, port) == Current(before + [step], port)
  {
  }

  lemma BalancesStep(w: World, before: seq<Step>, step: Step, ports: seq<nat>)
    requires Distinct(ports) && Sound(w) && Balances(w, before, ports)
    requires forall port :: Baseline(w.last, port) == Current(before, port)
    requires step.Stats? ==> step.port in ports
    ensures Balances(After(w, step), before + [step], ports)
  {
    assert (before + [step])[..|before|] == before;
    StepAccounts(w, step, SRTP_TRANSPORT);
    StepAccounts(w, step, UNENCRYPTED_TRANSPORT);
    ReportMovesOnePort(before + [step], ports);
  }

  lemma FollowsStep(w: World, before: seq<Step>, step: Step, ports: seq<nat>)
    requires Distinct(ports) && Follows(w, before, ports)
    ensures Follows(After(w, step), before + [step], ports)
  {
    StepIsSound(w, step);
    CurrentStep(w, before, step);
    if OnPorts(before + [step], ports) {
      var steps := before + [step];
      assert forall i :: 0 <= i < |before| ==> before[i] == steps[i];
      assert steps[|before|] == step;
      BalancesStep(w, before, step, ports);
    }
  }

  /**
   * Over every run of reports, respawns, publishes and failures: the encrypted transport's
   * bytes are the helpers' last reports, plus any count a helper took back; the other
   * transport's are its datagrams.
   */
  lemma EveryByteIsAccountedFor(hasClient: bool, steps: seq<Step>, ports: seq<nat>)
    requires Distinct(ports) && OnPorts(steps, ports)
    ensures Balances(Run(After, Initial(hasClient), steps), steps, ports)
  {
    FollowsFromTheStart(hasClient, [], ports);
    forall w, before, step | Follows(w, before, ports)
      ensures Follows(After(w, step), before + [step], ports)
    {
      FollowsStep(w, before, step, ports);
    }
    AlwaysOfHistory(After, (w, before) => Follows(w, before, ports), Initial(hasClient), steps);
  }

  lemma FollowsFromTheStart(hasClient: bool, none: seq<Step>, ports: seq<nat>)
    requires none == []
    ensures Follows(Initial(hasClient), none, ports)
  {
    NothingAccounted(hasClient, SRTP_TRANSPORT);
    NothingAccounted(hasClient, UNENCRYPTED_TRANSPORT);
    NothingBalances(Initial(hasClient), none, ports);
    SoundAtStart(hasClient);
  }

  lemma NothingBalances(w: World, none: seq<Step>, ports: seq<nat>)
    requires none == [] && Accounted(w, SRTP_TRANSPORT) == 0 && Accounted(w, UNENCRYPTED_TRANSPORT) == 0
    ensures Balances(w, none, ports)
  {
    NothingReported(none, ports);
  }

  lemma NothingAccounted(hasClient: bool, transport: Transport)
    ensures Accounted(Initial(hasClient), transport) == 0
  {
  }

  lemma SoundAtStart(hasClient: bool)
    ensures Sound(Initial(hasClient))
  {
    FreshIsWellFormed();
  }

  lemma {:induction false} NothingReported(none: seq<Step>, ports: seq<nat>)
    requires none == []
    ensures AllLastReports(none, ports) == 0
    decreases ports
  {
    if ports == [] {
    } else {
      NothingReported(none, ports[..|ports| - 1]);
    }
  }

  lemma {:induction false} ForgottenIffFalling(steps: seq<Step>)
    ensures Forgotten(steps) == 0 <==> CountersRise(steps)
  {
    if steps == [] {
    } else {
      var init := steps[..|steps| - 1];
      ForgottenIffFalling(init);
      assert forall i :: 0 <= i < |init| ==> init[..i] == steps[..i] && init[i] == steps[i];
      if CountersRise(steps) {
        assert CountersRise(init);
      }
    }
  }

  /** The published bytes are the helpers' last reports exactly when no helper's count falls. */
  lemma ConservedIffCountersRise(hasClient: bool, steps: seq<Step>, ports: seq<nat>)
    requires Distinct(ports) && OnPorts(steps, ports)
    ensures Accounted(Run(After, Initial(hasClient), steps), SRTP_TRANSPORT) == AllLastReports(steps, ports)
            <==> CountersRise(steps)
  {
    EveryByteIsAccountedFor(hasClient, steps, ports);
    ForgottenIffFalling(steps);
  }
}
