/**
 * Runs of one helper: its streaming thread and its main loop take turns in any order. The
 * streaming thread's turns are its locked sections; the main loop's are its locked sections
 * and the code between them, wherever the streaming thread is running. Once a pipeline has
 * been torn down it is not, and the rest of the callback is one turn. A step that is not
 * possible when it is scheduled does nothing.
 */
module HelperRuns {
  import opened Wrappers
  import opened PacketIndex
  import opened HelperFrames
  import opened PortSpec
  import opened Runs

  /**
   * How far the main loop is into a tick or a start. A searching helper that lost
   * authentication resets its session with the pipeline up: `highest` is what it has read.
   */
  datatype Tick =
    | AtRest
    | Looked(look: Look)
    | Switching
    | Removing
    | Losing(highest: Option<nat>)
    | Restarting
    | Forgetting
    | Granting(seed: Option<nat>)

  /**
   * `keyed` says that the authenticator of the current pipeline has been handed a key:
   * until then it authenticates nothing.
   */
  datatype Helper = Helper(port: Port, tick: Tick, keyed: bool)

  datatype Step =
    // the streaming thread
    | KeyRequested(ssrc: nat)
    | Authenticated(sn: Option<SequenceNumber>, at: nat)
    // the main loop, through one tick
    | TickLooks
    | TickDecides(now: int, authLossMs: nat)
    | TickSwitches(tried: bool)
    | KeyRemoved
    | FloorMoves
    | SearchRestarts
    | KeyForgotten
    // the main loop, between ticks
    | StartRead
    | TornDown
    | StopRead
    | FlushEnded
    | PipelineFailed
    | SignalReceived

  datatype Event =
    | HandedKey(candidate: nat)
    | AcceptedUnder(key: Option<nat>, index: nat)
    | Refused
    | SearchAdvanced
    | Confirmed(named: nat)
    | LossRead
    | FloorMoved
    | SearchRestarted
    | SessionEnded
    | Nothing

  /** The name in an `auth ok` frame that reports a first confirmation. */
  function FirstNamed(frames: seq<Frame>): Option<nat> {
    if |frames| > 0 && frames[0].AuthOk? && frames[0].first then frames[0].named else None
  }

  /** A rebuilt pipeline has an authenticator nobody has given a key. */
  function Rebuilt(port: Port): Helper {
    Helper(port, AtRest, false)
  }

  function Next(h: Helper, step: Step): (Helper, Event) {
    match step
    case KeyRequested(ssrc) =>
      var (p, key, _) := RequestKey(h.port, ssrc);
      (h.(port := p, keyed := h.keyed || key.Some?), if key.Some? then HandedKey(key.value) else Nothing)
    case Authenticated(sn, at) =>
      if !h.keyed then (h, Nothing)
      else
        var (p, accepted) := RecordAuthenticated(h.port, sn, at);
        (h.(port := p),
         if accepted then AcceptedUnder(h.port.tally.keyCandidate, ComputedIndex(h.port.tally, sn.value))
         else Refused)
    case TickLooks =>
      if !h.tick.AtRest? || h.port.shuttingDown then (h, Nothing)
      else
        var (p, look) := TickLook(h.port);
        (h.(port := p, tick := Looked(look)), Nothing)
    case TickDecides(now, authLossMs) =>
      if !h.tick.Looked? then (h, Nothing)
      else if IsLost(h.port, h.tick.look, now, authLossMs) then
        if h.port.mode.ProducingMode? then (Rebuilt(GiveUp(h.port).0), SessionEnded)
        else (h.(tick := Losing(h.port.tally.highestIndex)), LossRead)
      else if h.tick.look.authenticated == 0 && !h.port.confirmed then (h.(tick := Switching), Nothing)
      else
        var (p, frames) := Confirm(h.port, h.tick.look, now);
        var named := FirstNamed(frames);
        (h.(port := p, tick := AtRest), if named.Some? then Confirmed(named.value) else Nothing)
    case TickSwitches(tried) =>
      if !h.tick.Switching? then (h, Nothing)
      else if !tried then (h.(tick := AtRest), Nothing)
      else
        var (p, frames) := Switch(h.port);
        if frames == [] then (h.(tick := AtRest), Nothing)
        else (h.(port := p, tick := Removing), SearchAdvanced)
    case KeyRemoved =>
      (if h.tick.Removing? then h.(tick := AtRest) else h, Nothing)
    case FloorMoves =>
      if !h.tick.Losing? then (h, Nothing)
      else (h.(port := MoveFloor(h.port, h.tick.highest), tick := Restarting), FloorMoved)
    case SearchRestarts =>
      if !h.tick.Restarting? then (h, Nothing)
      else (h.(port := RestartSearch(h.port, None), tick := Forgetting), SearchRestarted)
    case KeyForgotten =>
      if !h.tick.Forgetting? then (h, Nothing)
      else (h.(port := EndSession(h.port), tick := AtRest), SessionEnded)
    case StartRead =>
      (if h.tick.AtRest? && MayStart(h.port) then h.(tick := Granting(StartSeed(h.port))) else h, Nothing)
    case TornDown =>
      if !h.tick.Granting? then (h, Nothing) else (Rebuilt(Grant(h.port, h.tick.seed)), SessionEnded)
    case StopRead =>
      if !h.tick.AtRest? then (h, Nothing) else (h.(port := CmdStop(h.port).0), Nothing)
    case FlushEnded =>
      if !h.tick.AtRest? || !h.port.stopping then (h, Nothing)
      else (Rebuilt(FinishStop(h.port).0), SessionEnded)
    case PipelineFailed =>
      if !h.tick.AtRest? || h.port.mode.SearchingMode? then (h, Nothing)
      else (Rebuilt(PipelineError(h.port).0), SessionEnded)
    case SignalReceived =>
      if !h.tick.AtRest? then (h, Nothing) else (h.(port := h.port.(shuttingDown := true)), Nothing)
  }

  function After(h: Helper, step: Step): Helper {
    Next(h, step).0
  }

  /** A tick that nothing interrupts is its steps, one after another. */
  lemma TickIsItsSteps(h: Helper, now: int, authLossMs: nat, trialDrops: nat, e: Evidence)
    requires h.tick.AtRest?
    ensures var looked := After(h, TickLooks);
            var decided := After(looked, TickDecides(now, authLossMs));
            var reset := After(After(After(decided, FloorMoves), SearchRestarts), KeyForgotten);
            var last := After(After(reset, TickSwitches(IsTried(e, trialDrops))), KeyRemoved);
            last.tick.AtRest? && last.port == PortSpec.Tick(h.port, now, authLossMs, trialDrops, e).0
  {
  }

  /** And so is a start. */
  lemma StartIsItsSteps(h: Helper)
    requires h.tick.AtRest?
    ensures After(After(h, StartRead), TornDown).port == CmdStart(h.port).0
  {
  }

  predicate WithinSession(h: Helper, step: Step) {
    !Next(h, step).1.SessionEnded?
  }

  predicate AnyStep(h: Helper, step: Step) {
    true
  }

  /** The helper before step number `i` of a run. */
  function Before(h: Helper, steps: seq<Step>, i: nat): Helper
    requires i <= |steps|
  {
    Run(After, h, steps[..i])
  }

  /** What step number `i` of a run did. */
  function EventAt(h: Helper, steps: seq<Step>, i: nat): Event
    requires i < |steps|
  {
    Next(Before(h, steps, i), steps[i]).1
  }

  /** No session ends in steps `i` to `n - 1`. */
  predicate OneSession(h: Helper, steps: seq<Step>, i: nat, n: nat)
    requires n <= |steps|
  {
    forall m :: i <= m < n ==> WithinSession(Before(h, steps, m), steps[m])
  }

  // ---------------------------------------------------------------- crediting

  /** A session that begins on a pipeline just built. */
  predicate FreshSession(h: Helper) {
    && !h.keyed && h.tick.AtRest? && !h.port.confirmed
    && h.port.tally.keyCandidate.None? && h.port.tally.keyAuthenticated == 0
  }

  /** The pipeline still has the key of the session before, and nothing is known of it. */
  predicate Resumed(h: Helper) {
    && h.keyed && !h.port.confirmed && h.port.tally.keyCandidate.None? && h.port.tally.keyAuthenticated == 0
    && (h.tick.Looked? ==> h.tick.look.authenticated == 0)
  }

  /** A helper just started is fresh, and so is every session but a searching loss's, which is resumed. */
  lemma RebuildsStartFresh(h: Helper, step: Step, ssrc: nat, floor: Option<nat>, from: Option<int>, every: int)
    ensures FreshSession(Rebuilt(Started(ssrc, floor, from, every)))
    ensures Next(h, step).1.SessionEnded? && !step.KeyForgotten? ==> FreshSession(After(h, step))
    ensures Next(h, step).1.SessionEnded? && step.KeyForgotten? && h.keyed ==> Resumed(After(h, step))
  {
  }

  /** Credit stands for a key that was handed out, and a look that saw credit chose that key. */
  predicate CreditInv(h: Helper) {
    var p := h.port;
    && (h.keyed <==> p.tally.keyCandidate.Some?)
    && (p.tally.keyAuthenticated > 0 ==> h.keyed)
    && (h.tick.Looked? && h.tick.look.authenticated > 0 ==> p.tally.keyAuthenticated > 0)
    && (h.tick.Looked? && h.tick.look.authenticated > 0 && !p.confirmed ==> p.tally.keyCandidate == Some(p.candidate))
    && (p.confirmed ==> p.tally.keyAuthenticated > 0)
  }

  /** A packet has been accepted under candidate `c` in this session. */
  predicate Credited(h: Helper, c: nat) {
    CreditInv(h) && h.port.tally.keyAuthenticated > 0 && h.port.tally.keyCandidate == Some(c)
  }

  lemma CreditStep(h: Helper, step: Step)
    requires CreditInv(h) && !Next(h, step).1.SessionEnded?
    ensures CreditInv(Next(h, step).0)
    ensures Next(h, step).1.AcceptedUnder? ==>
              Next(h, step).1.key.Some? && Credited(Next(h, step).0, Next(h, step).1.key.value)
    ensures Next(h, step).1.Confirmed? ==> Credited(h, Next(h, step).1.named)
    ensures forall c :: Credited(h, c) ==>
              && Credited(Next(h, step).0, c)
              && (Next(h, step).1.HandedKey? ==> Next(h, step).1.candidate == c)
              && (Next(h, step).1.AcceptedUnder? ==> Next(h, step).1.key == Some(c))
              && !Next(h, step).1.SearchAdvanced?
  {
  }

  lemma CreditAlways(h: Helper, steps: seq<Step>, b: nat, n: nat)
    requires b <= n <= |steps| && CreditInv(Before(h, steps, b)) && OneSession(h, steps, b, n)
    ensures CreditInv(Before(h, steps, n))
  {
    forall t, l | CreditInv(t) && WithinSession(t, l)
      ensures CreditInv(After(t, l))
    {
      CreditStep(t, l);
    }
    Keeps(After, CreditInv, WithinSession, h, steps, b, n);
  }

  lemma CreditStays(h: Helper, steps: seq<Step>, i: nat, n: nat, c: nat)
    requires i <= n <= |steps| && Credited(Before(h, steps, i), c) && OneSession(h, steps, i, n)
    ensures Credited(Before(h, steps, n), c)
  {
    var inv := t => Credited(t, c);
    forall t, l | inv(t) && WithinSession(t, l)
      ensures inv(After(t, l))
    {
      CreditStep(t, l);
    }
    Keeps(After, inv, WithinSession, h, steps, i, n);
  }

  lemma AcceptanceCredits(h: Helper, steps: seq<Step>, b: nat, i: nat)
    requires b <= i < |steps| && CreditInv(Before(h, steps, b)) && OneSession(h, steps, b, i + 1)
    requires EventAt(h, steps, i).AcceptedUnder?
    ensures EventAt(h, steps, i).key.Some?
    ensures Credited(Before(h, steps, i + 1), EventAt(h, steps, i).key.value)
  {
    CreditAlways(h, steps, b, i);
    CreditStep(Before(h, steps, i), steps[i]);
    RunStep(After, h, steps, i);
  }

  /** What has just happened has to do with no key but `c`. */
  predicate OnlyOf(c: nat, later: Event) {
    && (later.HandedKey? ==> later.candidate == c)
    && (later.AcceptedUnder? ==> later.key == Some(c))
    && (later.Confirmed? ==> later.named == c)
    && !later.SearchAdvanced?
  }

  lemma KeyIsKeptFrom(h: Helper, steps: seq<Step>, b: nat, i: nat, j: nat)
    requires b <= i < j < |steps| && CreditInv(Before(h, steps, b)) && OneSession(h, steps, b, j + 1)
    requires EventAt(h, steps, i).AcceptedUnder?
    ensures EventAt(h, steps, i).key.Some? && OnlyOf(EventAt(h, steps, i).key.value, EventAt(h, steps, j))
  {
    AcceptanceCredits(h, steps, b, i);
    var c := EventAt(h, steps, i).key.value;
    CreditStays(h, steps, i + 1, j, c);
    CreditStep(Before(h, steps, j), steps[j]);
  }

  /** Steps `i` to `n - 1` of one session, before any reset of it has begun. */
  predicate OneSearch(h: Helper, steps: seq<Step>, i: nat, n: nat)
    requires n <= |steps|
  {
    OneSession(h, steps, i, n) && forall m :: i <= m < n ==> !EventAt(h, steps, m).LossRead?
  }

  /**
   * Whatever the two threads' interleaving, once a packet is accepted under candidate c in
   * a session built on a new pipeline, until that session is lost or ends: every later key handed
   * out is c, every later packet is accepted under c, the confirmation names c, and the search
   * never steps on again.
   */
  lemma AcceptedKeyIsKept(h: Helper, steps: seq<Step>, i: nat, j: nat)
    requires FreshSession(h) && i < j < |steps| && OneSearch(h, steps, 0, j + 1)
    requires EventAt(h, steps, i).AcceptedUnder?
    ensures EventAt(h, steps, i).key.Some? && OnlyOf(EventAt(h, steps, i).key.value, EventAt(h, steps, j))
  {
    assert steps[..0] == [];
    KeyIsKeptFrom(h, steps, 0, i, j);
  }

  /**
   * A key request in the middle of whose locked section a searching reset puts its search in
   * place. That is done without the lock, and it writes the candidate.
   */
  function TornRequest(h: Helper): (Helper, nat) {
    var (p, given, _) := GiveKey(RestartSearch(ChooseKey(h.port), None));
    (h.(port := p, tick := Forgetting, keyed := true), given)
  }

  /**
   * The authenticator is given the floor's counter, whatever key credit stands for: they are the
   * same only if that is the floor's. The reset's last section then forgets the credit, and the
   * next request gives the floor's counter again.
   */
  lemma TornHandOut(h: Helper, c: nat)
    requires Credited(h, c) && h.tick.Restarting? && FloorRoc(h.port.floor) <= ROC_MAX
    ensures var (torn, given) := TornRequest(h);
            var next := After(torn, KeyForgotten);
            && given == FloorRoc(h.port.floor) && torn.port.tally.roc == given
            && torn.port.tally.keyCandidate == Some(c) && torn.port.tally.keyAuthenticated > 0
            && (Credited(torn, given) <==> FloorRoc(h.port.floor) == c)
            && Resumed(next) && Next(next, KeyRequested(h.port.ssrc)).1 == HandedKey(given)
  {
  }

  /** A confirmation is never reported before a packet was accepted, and names its key. */
  lemma ConfirmationIsEarned(h: Helper, steps: seq<Step>, j: nat) returns (i: nat)
    requires FreshSession(h) && j < |steps| && OneSession(h, steps, 0, j + 1)
    requires EventAt(h, steps, j).Confirmed?
    ensures i < j && EventAt(h, steps, i).AcceptedUnder?
    ensures EventAt(h, steps, i).key == Some(EventAt(h, steps, j).named)
  {
    assert steps[..0] == [];
    CreditAlways(h, steps, 0, j);
    CreditStep(Before(h, steps, j), steps[j]);
    i := CreditHasSource(h, steps, j);
    KeyIsKeptFrom(h, steps, 0, i, j);
  }

  lemma UncreditedStep(h: Helper, step: Step)
    requires h.port.tally.keyAuthenticated == 0 && !Next(h, step).1.AcceptedUnder?
    ensures After(h, step).port.tally.keyAuthenticated == 0
  {
  }

  lemma {:induction false} CreditHasSource(h: Helper, steps: seq<Step>, n: nat) returns (i: nat)
    requires FreshSession(h) && n <= |steps|
    requires Before(h, steps, n).port.tally.keyAuthenticated > 0
    ensures i < n && EventAt(h, steps, i).AcceptedUnder?
  {
    RunStep(After, h, steps, n - 1);
    if EventAt(h, steps, n - 1).AcceptedUnder? {
      i := n - 1;
    } else {
      if Before(h, steps, n - 1).port.tally.keyAuthenticated == 0 {
        UncreditedStep(Before(h, steps, n - 1), steps[n - 1]);
      }
      i := CreditHasSource(h, steps, n - 1);
    }
  }

  // ---------------------------------------------------------------- a session begun by a searching loss

  lemma ResumedStep(h: Helper, step: Step)
    requires Resumed(h) && WithinSession(h, step)
    ensures Next(h, step).1.HandedKey? ==> CreditInv(After(h, step))
    ensures !Next(h, step).1.HandedKey? && !Next(h, step).1.AcceptedUnder? ==> Resumed(After(h, step))
    ensures Next(h, step).1.AcceptedUnder? ==> Next(h, step).1.key.None? && After(h, step).port.tally.keyCandidate.None?
  {
  }

  predicate HandsNothingOut(h: Helper, step: Step) {
    !Next(h, step).1.HandedKey?
  }

  /** In steps `b` to `n - 1` no key is handed out. */
  predicate NoneHandedOut(h: Helper, steps: seq<Step>, b: nat, n: nat)
    requires n <= |steps|
  {
    forall m :: b <= m < n ==> HandsNothingOut(Before(h, steps, m), steps[m])
  }

  predicate AcceptsNothing(h: Helper, step: Step) {
    !Next(h, step).1.AcceptedUnder?
  }

  predicate NoneAccepted(h: Helper, steps: seq<Step>, n: nat)
    requires n <= |steps|
  {
    forall m :: 0 <= m < n ==> AcceptsNothing(Before(h, steps, m), steps[m])
  }

  predicate IsUneventful(h: Helper, step: Step) {
    WithinSession(h, step) && HandsNothingOut(h, step) && AcceptsNothing(h, step)
  }

  lemma ResumedStays(h: Helper, steps: seq<Step>, n: nat)
    requires Resumed(h) && n <= |steps| && OneSession(h, steps, 0, n)
    requires NoneAccepted(h, steps, n) && NoneHandedOut(h, steps, 0, n)
    ensures Resumed(Before(h, steps, n))
  {
    forall t, l | Resumed(t) && IsUneventful(t, l)
      ensures Resumed(After(t, l))
    {
      ResumedStep(t, l);
    }
    assert steps[..0] == [];
    Keeps(After, Resumed, IsUneventful, h, steps, 0, n);
  }

  lemma {:induction false} FirstHandedOut(h: Helper, steps: seq<Step>, n: nat) returns (m: nat)
    requires n <= |steps| && !NoneHandedOut(h, steps, 0, n)
    ensures m < n && !HandsNothingOut(Before(h, steps, m), steps[m]) && NoneHandedOut(h, steps, 0, m)
  {
    if NoneHandedOut(h, steps, 0, n - 1) {
      m := n - 1;
    } else {
      m := FirstHandedOut(h, steps, n - 1);
    }
  }

  /** Once a key has been handed out, with nothing accepted before, credit is that key's. */
  lemma CreditedOnceHandedOut(h: Helper, steps: seq<Step>, n: nat)
    requires Resumed(h) && n <= |steps| && OneSession(h, steps, 0, n)
    requires NoneAccepted(h, steps, n) && !NoneHandedOut(h, steps, 0, n)
    ensures CreditInv(Before(h, steps, n))
  {
    var m := FirstHandedOut(h, steps, n);
    ResumedStays(h, steps, m);
    ResumedStep(Before(h, steps, m), steps[m]);
    RunStep(After, h, steps, m);
    CreditAlways(h, steps, m + 1, n);
  }

  /** A packet accepted under no known key. */
  predicate Unclaimed(h: Helper) {
    h.port.tally.keyCandidate.None?
  }

  lemma UnclaimedStep(h: Helper, step: Step)
    requires Unclaimed(h)
    ensures if Next(h, step).1.HandedKey?
            then After(h, step).port.tally.keyAuthenticated == 0 && Next(h, step).1.candidate == h.port.candidate
            else Unclaimed(After(h, step))
  {
  }

  lemma UnclaimedStays(h: Helper, steps: seq<Step>, b: nat, n: nat)
    requires b <= n <= |steps| && Unclaimed(Before(h, steps, b)) && NoneHandedOut(h, steps, b, n)
    ensures Unclaimed(Before(h, steps, n))
  {
    forall t, l | Unclaimed(t) && HandsNothingOut(t, l)
      ensures Unclaimed(After(t, l))
    {
      UnclaimedStep(t, l);
    }
    Keeps(After, Unclaimed, HandsNothingOut, h, steps, b, n);
  }

  /**
   * In a session begun by a searching loss the first packet accepted is credited to a key, and
   * that key is kept, if and only if a key was handed out in the session before it. Otherwise the
   * first key asked for discards the credit, and is the search's candidate, whatever the key was
   * that the packet proved right.
   */
  lemma KeptIffHandedOut(h: Helper, steps: seq<Step>, i: nat, j: nat)
    requires Resumed(h) && i < j < |steps| && OneSearch(h, steps, 0, j + 1)
    requires EventAt(h, steps, i).AcceptedUnder? && NoneAccepted(h, steps, i)
    ensures EventAt(h, steps, i).key.Some? <==> !NoneHandedOut(h, steps, 0, i)
    ensures EventAt(h, steps, i).key.Some? ==> OnlyOf(EventAt(h, steps, i).key.value, EventAt(h, steps, j))
    ensures EventAt(h, steps, i).key.None? && NoneHandedOut(h, steps, i, j) && EventAt(h, steps, j).HandedKey? ==>
              && EventAt(h, steps, j).candidate == Before(h, steps, j).port.candidate
              && Before(h, steps, j + 1).port.tally.keyAuthenticated == 0
  {
    RunStep(After, h, steps, i);
    if NoneHandedOut(h, steps, 0, i) {
      ResumedStays(h, steps, i);
      ResumedStep(Before(h, steps, i), steps[i]);
      if NoneHandedOut(h, steps, i, j) {
        UnclaimedStays(h, steps, i + 1, j);
        UnclaimedStep(Before(h, steps, j), steps[j]);
        RunStep(After, h, steps, j);
      }
    } else {
      CreditedOnceHandedOut(h, steps, i);
      KeyIsKeptFrom(h, steps, i, i, j);
    }
  }
}
