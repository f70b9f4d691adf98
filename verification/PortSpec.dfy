/**
 * What a helper's session does, on values: what it tracks of the authenticated stream,
 * what it accepts, which candidate it hands to the authenticator, and how a start, a stop
 * or an authentication loss rebuilds it. A function is one section under the counters lock,
 * one piece of main-loop code between two such sections, or - where its name is a
 * callback's - the composition of these when the streaming thread takes no turn between.
 */
module PortSpec {
  import opened Wrappers
  import opened PacketIndex
  import opened HelperFrames
  import RolloverSearch

  const INDEX_REPORT_MS: nat := 1000

  datatype Mode = SearchingMode | ProducingMode

  /** The fields of `Counters` that decisions are made on. */
  datatype Tally = Tally(
    authenticated: nat,
    highestSeq: Option<nat>,
    highestIndex: Option<nat>,
    stale: nat,
    lastAuthMs: nat,
    roc: nat,
    rocChanged: bool,
    keyCandidate: Option<nat>,
    keyAuthenticated: nat,
    foreignSsrc: nat
  )

  /** The fields of `SrtpPort`. */
  datatype Port = Port(
    ssrc: nat,
    floorEvery: int,
    tally: Tally,
    floor: Option<nat>,
    carried: Option<int>,
    mode: Mode,
    search: RolloverSearch.State,
    candidate: nat,
    confirmed: bool,
    stopping: bool,
    shuttingDown: bool,
    keyRequests: nat,
    reportedIndex: Option<nat>,
    indexReportedMs: int
  )

  /** What one supervision tick reads under the lock, and acts on after letting it go. */
  datatype Look = Look(authenticated: nat, roc: nat, rocChanged: bool, highestSeq: Option<nat>, lastAuthMs: nat)

  /** The index a packet is judged against: the highest so far, or the seeded counter's. */
  function LocalIndex(c: Tally, sn: nat): nat {
    Index(c.roc, if c.highestSeq.None? then sn else c.highestSeq.value)
  }

  /** The index the helper computes for an authenticated packet. */
  function ComputedIndex(c: Tally, sn: nat): nat {
    EstimatedIndex(LocalIndex(c, sn), sn)
  }

  /** The tracker after an authenticated packet, accepted or not: only a forward index moves it. */
  function Track(c: Tally, sn: nat): Tally {
    var local, index := LocalIndex(c, sn), ComputedIndex(c, sn);
    if index > local then
      c.(roc := Roc(index), highestSeq := Some(Seq(index)), rocChanged := c.rocChanged || Roc(index) != Roc(local))
    else if c.highestSeq.None? then c.(highestSeq := Some(sn))
    else c
  }

  predicate AboveFloor(floor: Option<nat>, index: nat) {
    floor.None? || index > floor.value
  }

  function Max(a: Option<nat>, b: nat): nat {
    if a.None? || b > a.value then b else a.value
  }

  function Accept(c: Tally, index: nat, now: nat): Tally {
    c.(authenticated := c.authenticated + 1,
       keyAuthenticated := c.keyAuthenticated + 1,
       lastAuthMs := now,
       highestIndex := Some(Max(c.highestIndex, index)))
  }

  function RecordAuthenticated(p: Port, sn: Option<nat>, now: nat): (Port, bool) {
    if sn.None? then (p, false)
    else
      var index := ComputedIndex(p.tally, sn.value);
      var c := Track(p.tally, sn.value);
      if !AboveFloor(p.floor, index) then (p.(tally := c.(stale := c.stale + 1)), false)
      else
        (p.(tally := Accept(c, index, now)), true)
  }

  /** The first half of a hand-out: a proven key becomes the candidate, or the candidate the key on trial. */
  function ChooseKey(p: Port): Port {
    if p.tally.keyCandidate.Some? && p.tally.keyAuthenticated > 0 then p.(candidate := p.tally.keyCandidate.value)
    else p.(tally := p.tally.(keyCandidate := Some(p.candidate), keyAuthenticated := 0))
  }

  /** The second: the candidate, read back, is what the authenticator is given, and the tracker starts from it. */
  function GiveKey(p: Port): (Port, nat, seq<Frame>) {
    (p.(keyRequests := p.keyRequests + 1, tally := p.tally.(roc := p.candidate, highestSeq := None, rocChanged := false)),
     p.candidate,
     [Trial(p.candidate, p.keyRequests)])
  }

  /** The candidate handed out, if the datagram is this port's own, and the trial frame. */
  function RequestKey(p: Port, ssrc: nat): (Port, Option<nat>, seq<Frame>) {
    var c := p.tally;
    if ssrc != p.ssrc then (p.(tally := c.(foreignSsrc := c.foreignSsrc + 1)), None, [])
    else
      var proven := c.keyCandidate.Some? && c.keyAuthenticated > 0;
      var candidate := if proven then c.keyCandidate.value else p.candidate;
      (p.(candidate := candidate,
          keyRequests := p.keyRequests + 1,
          tally := c.(
            keyCandidate := Some(candidate),
            keyAuthenticated := if proven then c.keyAuthenticated else 0,
            roc := candidate,
            highestSeq := None,
            rocChanged := false)),
       Some(candidate),
       [Trial(candidate, p.keyRequests)])
  }

  /** A hand-out that nothing falls into is its two halves. */
  lemma HandOutIsItsHalves(p: Port)
    ensures var (q, candidate, frames) := GiveKey(ChooseKey(p));
            RequestKey(p, p.ssrc) == (q, Some(candidate), frames)
  {
  }

  function FloorRoc(floor: Option<nat>): nat {
    if floor.None? then 0 else Roc(floor.value)
  }

  /** A reset's second section: the floor rises to the maximum its first section read. */
  function MoveFloor(p: Port, highest: Option<nat>): Port {
    if highest.None? then p else p.(floor := Some(Max(p.floor, highest.value)))
  }

  /** Its third: a search from the floor's counter, and a candidate. */
  function RestartSearch(p: Port, seed: Option<nat>): Port {
    var search := RolloverSearch.Start(FloorRoc(p.floor), p.carried, p.floorEvery);
    var first := RolloverSearch.Step(search);
    p.(search := if seed.Some? then search else first.0,
       candidate := if seed.Some? then seed.value else first.1)
  }

  function ForgetKey(c: Tally): Tally {
    c.(keyCandidate := None, keyAuthenticated := 0, highestSeq := None, rocChanged := false)
  }

  /** Its last: the key's credit and the tracker's place are forgotten, under the lock. */
  function EndSession(p: Port): Port {
    p.(confirmed := false, tally := ForgetKey(p.tally))
  }

  function ResetSession(p: Port, seed: Option<nat>): Port {
    EndSession(RestartSearch(MoveFloor(p, p.tally.highestIndex), seed))
  }

  /** The locked read that opens a tick: the key that authenticated becomes the candidate. */
  function TickLook(p: Port): (Port, Look) {
    var c := p.tally;
    var proven := c.keyAuthenticated > 0 && !p.confirmed && c.keyCandidate.Some?;
    (p.(candidate := if proven then c.keyCandidate.value else p.candidate, tally := c.(rocChanged := false)),
     Look(c.keyAuthenticated, c.roc, c.rocChanged, c.highestSeq, c.lastAuthMs))
  }

  predicate IsLost(p: Port, look: Look, now: int, authLossMs: nat) {
    look.lastAuthMs > 0 && now - look.lastAuthMs > authLossMs && (p.confirmed || p.mode.ProducingMode?)
  }

  /** Authentication was lost: production, if any, is down before anything is reported. */
  function GiveUp(p: Port): (Port, seq<Frame>) {
    (ResetSession(p, None).(mode := SearchingMode),
     (if p.mode.ProducingMode? then [Stopped(p.tally.highestIndex)] else []) + [AuthLost])
  }

  function ReportIndex(p: Port, force: bool, now: int): (Port, seq<Frame>) {
    var index := p.tally.highestIndex;
    if index.None? || index == p.reportedIndex then (p, [])
    else if !force && now - p.indexReportedMs < INDEX_REPORT_MS then (p, [])
    else (p.(reportedIndex := index, indexReportedMs := now), [IndexReport(index.value)])
  }

  /** The rest of a tick that has something to confirm or has confirmed already. */
  function Confirm(p: Port, look: Look, now: int): (Port, seq<Frame>) {
    var first := look.authenticated > 0 && !p.confirmed;
    var q := p.(confirmed := p.confirmed || first);
    var ok :=
      if first then [AuthOk(true, look.roc, look.highestSeq, Some(p.candidate))]
      else if q.confirmed && look.rocChanged then [AuthOk(false, look.roc, look.highestSeq, None)]
      else [];
    if q.confirmed then
      var r := ReportIndex(q, false, now);
      (r.0, ok + r.1)
    else (q, ok)
  }

  /** What has arrived and what was rejected since the trial began, and whether its time is up. */
  datatype Evidence = Evidence(inputs: nat, drops: nat, timedOut: bool)

  /** Datagrams were rejected under this candidate, or arrived and the trial timed out. */
  predicate IsTried(e: Evidence, trialDrops: nat) {
    e.drops >= trialDrops || (e.inputs > 0 && e.timedOut)
  }

  /** The last look and the switch, together under the lock. */
  function Switch(p: Port): (Port, seq<Frame>) {
    if p.tally.keyAuthenticated > 0 then (p, [])
    else
      var next := RolloverSearch.Step(p.search);
      (p.(search := next.0, candidate := next.1, carried := Some(next.0.far)),
       [AuthFail(p.candidate, Some(next.0.far))])
  }

  /** A whole tick, when the streaming thread takes no turn between its locked sections. */
  function Tick(p: Port, now: int, authLossMs: nat, trialDrops: nat, e: Evidence): (Port, seq<Frame>) {
    if p.shuttingDown then (p, [])
    else
      var (q, look) := TickLook(p);
      if IsLost(q, look, now, authLossMs) then GiveUp(q)
      else if look.authenticated == 0 && !q.confirmed then
        if IsTried(e, trialDrops) then Switch(q) else (q, [])
      else Confirm(q, look, now)
  }

  predicate MayStart(p: Port) {
    !p.shuttingDown && !p.stopping && !p.mode.ProducingMode?
  }

  /** The counter a start seeds its session with, read before the pipeline is torn down. */
  function StartSeed(p: Port): Option<nat> {
    if p.confirmed then Some(p.tally.roc) else None
  }

  function Grant(p: Port, seed: Option<nat>): Port {
    ResetSession(p, seed).(mode := ProducingMode)
  }

  function CmdStart(p: Port): (Port, seq<Frame>) {
    if MayStart(p) then (Grant(p, StartSeed(p)), [ProducingStarted]) else (p, [])
  }

  function CmdStop(p: Port): (Port, seq<Frame>) {
    if p.shuttingDown || p.stopping then (p, [])
    else if p.mode.SearchingMode? then (p, [Stopped(p.tally.highestIndex)])
    else (p.(stopping := true), [])
  }

  /** The flush a stop asked for has ended, or its five seconds have. */
  function FinishStop(p: Port): (Port, seq<Frame>) {
    if !p.stopping then (p, [])
    else
      (ResetSession(p, None).(stopping := false, mode := SearchingMode), [Stopped(p.tally.highestIndex)])
  }

  /** A pipeline error while producing is recovered in place; while searching it ends the helper. */
  function PipelineError(p: Port): (Port, seq<Frame>, bool) {
    if p.mode.ProducingMode? then
      (ResetSession(p, None).(mode := SearchingMode), [Notice, Stopped(p.tally.highestIndex)], false)
    else
      var r := ReportIndex(p, true, p.indexReportedMs);
      (r.0, [Notice] + r.1, true)
  }

  /** A helper that has read its init frame; `None` stands for a floor or position it was not sent. */
  function Started(ssrc: nat, floor: Option<nat>, searchFrom: Option<int>, floorEvery: int): Port {
    var tally := Tally(0, None, None, 0, 0, 0, false, None, 0, 0);
    var floor' := if floor.Some? && floor.value <= INDEX_MAX then floor else None;
    ResetSession(
      Port(ssrc, floorEvery, tally, floor', searchFrom, SearchingMode,
           RolloverSearch.Start(0, None, floorEvery), 0, false, false, false, 0, None, 0),
      None)
  }
}
