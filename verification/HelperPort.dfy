/** The helper process's own objects: `Counters`, shared by its two threads, and `SrtpPort`. */
module HelperPort {
  import opened Wrappers
  import opened PacketIndex
  import opened HelperFrames
  import opened Types = PortSpec
  import Spec = PortSpec
  import RolloverSearch
  import opened PortLaws

  class Counters {
    var authenticated: nat
    var highestSeq: Option<nat>
    var highestIndex: Option<nat>
    var stale: nat
    var lastAuthMs: nat
    var roc: nat
    var rocChanged: bool
    var keyCandidate: Option<nat>
    var keyAuthenticated: nat
    var foreignSsrc: nat

    constructor ()
      ensures View() == Tally(0, None, None, 0, 0, 0, false, None, 0, 0)
    {
      authenticated, highestSeq, highestIndex, stale, lastAuthMs := 0, None, None, 0, 0;
      roc, rocChanged, keyCandidate, keyAuthenticated, foreignSsrc := 0, false, None, 0, 0;
    }

    function View(): Tally
      reads this
    {
      Tally(authenticated, highestSeq, highestIndex, stale, lastAuthMs,
            roc, rocChanged, keyCandidate, keyAuthenticated, foreignSsrc)
    }

    /** Follows one authenticated packet and computes its index. */
    method Observe(sn: nat) returns (index: nat)
      modifies this
      ensures index == Spec.ComputedIndex(old(View()), sn)
      ensures View() == Spec.Track(old(View()), sn)
    {
      var local: nat;
      if highestSeq.None? {
        local := Index(roc, sn);
        highestSeq := Some(sn);
      } else {
        local := Index(roc, highestSeq.value);
      }
      index := EstimatedIndex(local, sn);
      if index > local {
        roc := Roc(index);
        highestSeq := Some(Seq(index));
        if Roc(index) != Roc(local) {
          rocChanged := true;
        }
      }
    }

    /** Counts one accepted packet, to the key it authenticated under. */
    method Accept(index: nat, now: nat)
      modifies this
      ensures View() == Spec.Accept(old(View()), index, now)
    {
      authenticated := authenticated + 1;
      keyAuthenticated := keyAuthenticated + 1;
      lastAuthMs := now;
      if highestIndex.None? || index > highestIndex.value {
        highestIndex := Some(index);
      }
    }

    /** A new session: no key handed out, nothing followed. */
    method ForgetKey()
      modifies this
      ensures View() == Spec.ForgetKey(old(View()))
    {
      keyCandidate := None;
      keyAuthenticated := 0;
      highestSeq := None;
      rocChanged := false;
    }
  }

  class SrtpPort {
    const ssrc: nat
    const floorEvery: int
    const counters: Counters
    ghost const sent: Option<nat>  // the floor of the init frame
    var floor: Option<nat>
    var carriedSearchFrom: Option<int>
    var mode: Mode
    var candidates: RolloverSearch.Search
    var candidate: nat
    var confirmed: bool
    var stopping: bool
    var shuttingDown: bool
    var keyRequests: nat
    var reportedIndex: Option<nat>
    var indexReportedMs: int

    function View(): Port
      reads this, counters, candidates
    {
      Port(ssrc, floorEvery, counters.View(), floor, carriedSearchFrom, mode, candidates.View(), candidate,
           confirmed, stopping, shuttingDown, keyRequests, reportedIndex, indexReportedMs)
    }

    /**
     * The floor was sent or earned, the tracker stands on no index still to be accepted, nothing
     * unaccepted has been reported, and the far climb can be resumed.
     */
    ghost predicate Valid()
      reads this, counters, candidates
    {
      Sane(View(), sent)
    }

    constructor (ssrc: nat, floor: Option<nat>, searchFrom: Option<int>, floorEvery: int)
      ensures Valid() && sent == SentFloor(floor)
      ensures View() == Spec.Started(ssrc, floor, searchFrom, floorEvery)
      ensures fresh(counters) && fresh(candidates)
    {
      StartedIsSane(ssrc, floor, searchFrom, floorEvery);
      this.sent := SentFloor(floor);
      this.ssrc, this.floorEvery := ssrc, floorEvery;
      this.floor := if floor.Some? && floor.value <= INDEX_MAX then floor else None;
      this.carriedSearchFrom := searchFrom;
      this.mode := SearchingMode;
      this.candidates := new RolloverSearch.Search(0, None, floorEvery);
      this.candidate, this.confirmed, this.stopping, this.shuttingDown := 0, false, false, false;
      this.counters := new Counters();
      this.keyRequests, this.reportedIndex, this.indexReportedMs := 0, None, 0;
      new;
      ResetSession(None);
    }

    method RecordAuthenticated(sn: Option<SequenceNumber>, now: nat) returns (accepted: bool)
      requires Valid()
      modifies counters
      ensures Valid()
      ensures (View(), accepted) == Spec.RecordAuthenticated(old(View()), sn, now)
    {
      RecordKeepsSane(View(), sent, sn, now);
      accepted := Judge(sn, now);
    }

    method Judge(sn: Option<nat>, now: nat) returns (accepted: bool)
      modifies counters
      ensures (View(), accepted) == Spec.RecordAuthenticated(old(View()), sn, now)
    {
      if sn.None? {
        return false;
      }
      var index := counters.Observe(sn.value);
      if floor.Some? && index <= floor.value {
        counters.stale := counters.stale + 1;
        return false;
      }
      counters.Accept(index, now);
      return true;
    }

    method OnRequestKey(ssrc: nat) returns (key: Option<nat>, frames: seq<Frame>)
      requires Valid()
      modifies this, counters
      ensures Valid() && candidates == old(candidates)
      ensures (View(), key, frames) == Spec.RequestKey(old(View()), ssrc)
    {
      RequestKeyKeepsSane(View(), sent, ssrc);
      key, frames := HandOutKey(ssrc);
    }

    method HandOutKey(ssrc: nat) returns (key: Option<nat>, frames: seq<Frame>)
      modifies this, counters
      ensures candidates == old(candidates)
      ensures (View(), key, frames) == Spec.RequestKey(old(View()), ssrc)
    {
      if ssrc != this.ssrc {
        counters.foreignSsrc := counters.foreignSsrc + 1;
        return None, [];
      }
      Spec.HandOutIsItsHalves(View());
      ChooseKey();
      var given;
      given, frames := GiveKey();
      key := Some(given);
    }

    method ChooseKey()
      modifies this, counters
      ensures View() == Spec.ChooseKey(old(View())) && candidates == old(candidates)
    {
      if counters.keyCandidate.Some? && counters.keyAuthenticated > 0 {
        candidate := counters.keyCandidate.value;
      } else {
        counters.keyCandidate := Some(candidate);
        counters.keyAuthenticated := 0;
      }
    }

    method GiveKey() returns (given: nat, frames: seq<Frame>)
      modifies this, counters
      ensures (View(), given, frames) == Spec.GiveKey(old(View())) && candidates == old(candidates)
    {
      given := candidate;
      counters.roc := given;
      counters.highestSeq := None;
      counters.rocChanged := false;
      keyRequests := keyRequests + 1;
      frames := [Trial(given, keyRequests - 1)];
    }

    // A session reset: having read the maximum, the floor, the search, the key.

    method MoveFloor(highest: Option<nat>)
      modifies this
      ensures View() == Spec.MoveFloor(old(View()), highest) && candidates == old(candidates)
    {
      if highest.Some? && (floor.None? || highest.value > floor.value) {
        floor := highest;
      }
    }

    method RestartSearch(seed: Option<nat>)
      modifies this
      ensures View() == Spec.RestartSearch(old(View()), seed) && fresh(candidates)
    {
      var base := if floor.None? then 0 else Roc(floor.value);
      candidates := new RolloverSearch.Search(base, carriedSearchFrom, floorEvery);
      if seed.Some? {
        candidate := seed.value;
      } else {
        candidate := candidates.Next();
      }
    }

    method ForgetSession()
      modifies this, counters
      ensures View() == Spec.EndSession(old(View())) && candidates == old(candidates)
    {
      counters.ForgetKey();
      confirmed := false;
    }

    method ResetSession(seed: Option<nat>)
      modifies this, counters
      ensures View() == Spec.ResetSession(old(View()), seed) && fresh(candidates)
    {
      MoveFloor(counters.highestIndex);
      RestartSearch(seed);
      ForgetSession();
    }

    method TickLook() returns (look: Look)
      requires Valid()
      modifies this, counters
      ensures Valid() && candidates == old(candidates)
      ensures (View(), look) == Spec.TickLook(old(View()))
    {
      LookKeepsSane(View(), sent);
      var c := counters;
      if c.keyAuthenticated > 0 && !confirmed && c.keyCandidate.Some? {
        candidate := c.keyCandidate.value;
      }
      look := Look(c.keyAuthenticated, c.roc, c.rocChanged, c.highestSeq, c.lastAuthMs);
      c.rocChanged := false;
    }

    method GiveUp() returns (frames: seq<Frame>)
      requires Valid()
      modifies this, counters
      ensures Valid() && fresh(candidates)
      ensures (View(), frames) == Spec.GiveUp(old(View()))
    {
      ResetKeepsSane(View(), sent, None);
      frames := [];
      if mode.ProducingMode? {
        frames := [Stopped(counters.highestIndex)];
      }
      ResetSession(None);
      mode := SearchingMode;
      frames := frames + [AuthLost];
    }

    method ReportIndex(force: bool, now: int) returns (frames: seq<Frame>)
      requires Valid()
      modifies this
      ensures Valid() && candidates == old(candidates)
      ensures (View(), frames) == Spec.ReportIndex(old(View()), force, now)
    {
      ReportKeepsSane(View(), sent, force, now);
      var index := counters.highestIndex;
      if index.None? || index == reportedIndex {
        return [];
      }
      if !force && now - indexReportedMs < INDEX_REPORT_MS {
        return [];
      }
      reportedIndex := index;
      indexReportedMs := now;
      return [IndexReport(index.value)];
    }

    method Confirm(look: Look, now: int) returns (frames: seq<Frame>)
      requires Valid()
      modifies this
      ensures Valid() && candidates == old(candidates)
      ensures (View(), frames) == Spec.Confirm(old(View()), look, now)
    {
      ConfirmKeepsSane(View(), sent, look, now);
      frames := [];
      if look.authenticated > 0 && !confirmed {
        confirmed := true;
        frames := [AuthOk(true, look.roc, look.highestSeq, Some(candidate))];
      } else if confirmed && look.rocChanged {
        frames := [AuthOk(false, look.roc, look.highestSeq, None)];
      }
      if confirmed {
        var report := ReportIndex(false, now);
        frames := frames + report;
      }
    }

    method AdvanceSearchIfTried(trialDrops: nat, e: Evidence) returns (frames: seq<Frame>)
      requires Valid()
      modifies this, candidates
      ensures Valid() && candidates == old(candidates)
      ensures (View(), frames) == if Spec.IsTried(e, trialDrops) then Spec.Switch(old(View())) else (old(View()), [])
    {
      SwitchKeepsSane(View(), sent);
      if e.drops < trialDrops && !(e.inputs > 0 && e.timedOut) {
        return [];
      }
      if counters.keyAuthenticated > 0 {
        return [];
      }
      var failed := candidate;
      candidate := candidates.Next();
      carriedSearchFrom := Some(candidates.far);
      return [AuthFail(failed, Some(candidates.far))];
    }

    /** A start's second part, once the searching pipeline is down. */
    method Grant(seed: Option<nat>)
      requires Valid() && (seed.Some? ==> seed.value <= ROC_MAX)
      modifies this, counters
      ensures Valid() && fresh(candidates)
      ensures View() == Spec.Grant(old(View()), seed)
    {
      ResetKeepsSane(View(), sent, seed);
      ResetSession(seed);
      mode := ProducingMode;
    }

    method CmdStart() returns (frames: seq<Frame>)
      requires Valid()
      modifies this, counters
      ensures Valid() && (candidates == old(candidates) || fresh(candidates))
      ensures (View(), frames) == Spec.CmdStart(old(View()))
    {
      if shuttingDown || stopping {
        return [];
      }
      if mode.ProducingMode? {
        return [];
      }
      var seed := if confirmed then Some(counters.roc) else None;
      Grant(seed);
      return [ProducingStarted];
    }

    method CmdStop() returns (frames: seq<Frame>)
      requires Valid()
      modifies this
      ensures Valid() && candidates == old(candidates)
      ensures (View(), frames) == Spec.CmdStop(old(View()))
    {
      if shuttingDown || stopping {
        return [];
      }
      if !mode.ProducingMode? {
        return [Stopped(counters.highestIndex)];
      }
      stopping := true;
      return [];
    }

    method FinishStop() returns (frames: seq<Frame>)
      requires Valid()
      modifies this, counters
      ensures Valid() && (candidates == old(candidates) || fresh(candidates))
      ensures (View(), frames) == Spec.FinishStop(old(View()))
    {
      if !stopping {
        return [];
      }
      ResetKeepsSane(View(), sent, None);
      stopping := false;
      var index := counters.highestIndex;
      ResetSession(None);
      mode := SearchingMode;
      return [Stopped(index)];
    }

    method OnPipelineError() returns (frames: seq<Frame>, ended: bool)
      requires Valid()
      modifies this, counters
      ensures Valid() && (candidates == old(candidates) || fresh(candidates))
      ensures (View(), frames, ended) == Spec.PipelineError(old(View()))
    {
      if mode.ProducingMode? {
        ResetKeepsSane(View(), sent, None);
        frames := [Notice, Stopped(counters.highestIndex)];
        ResetSession(None);
        mode := SearchingMode;
        ended := false;
      } else {
        var report := ReportIndex(true, indexReportedMs);
        frames := [Notice] + report;
        ended := true;
      }
    }

    method Tick(now: int, authLossMs: nat, trialDrops: nat, e: Evidence) returns (frames: seq<Frame>)
      requires Valid()
      modifies this, counters, candidates
      ensures Valid() && (candidates == old(candidates) || fresh(candidates))
      ensures (View(), frames) == Spec.Tick(old(View()), now, authLossMs, trialDrops, e)
    {
      if shuttingDown {
        return [];
      }
      var look := TickLook();
      if look.lastAuthMs > 0 && now - look.lastAuthMs > authLossMs && (confirmed || mode.ProducingMode?) {
        frames := GiveUp();
      } else if look.authenticated == 0 && !confirmed {
        frames := AdvanceSearchIfTried(trialDrops, e);
      } else {
        frames := Confirm(look, now);
      }
    }
  }
}
