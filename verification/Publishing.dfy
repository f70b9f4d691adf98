/** When requests are made, how often, and what they say of a transport that serves. */
module Publishing {
  import opened Wrappers
  import opened Runs
  import opened TrafficMetrics
  import opened ByteCounting

  /** The last that was said of a transport: serving or not. Not, if nothing was. */
  function LastServing(steps: seq<Step>, transport: Transport): bool {
    if steps == [] then false
    else
      var last := steps[|steps| - 1];
      if last.Serving? && last.transport == transport then last.value
      else LastServing(steps[..|steps| - 1], transport)
  }

  predicate IsServing(l: Ledger, transport: Transport) {
    transport in l.serving && l.serving[transport]
  }

  lemma {:induction false} RestoreLeavesServing(l: Ledger, samples: seq<Sample>)
    ensures Restore(l, samples).serving == l.serving && Restore(l, samples).waiting == l.waiting
  {
    if samples == [] {
    } else {
      RestoreLeavesServing(l, samples[..|samples| - 1]);
    }
  }

  lemma ServingStep(w: World, step: Step, transport: Transport)
    ensures IsServing(ByteCounting.After(w, step).ledger, transport)
       <==> if step.Serving? && step.transport == transport then step.value else IsServing(w.ledger, transport)
  {
    if step.Answered? && w.ledger.inFlight.Some? {
      RestoreLeavesServing(w.ledger.(inFlight := None), w.ledger.inFlight.value);
    }
  }

  lemma NothingServesAtFirst(hasClient: bool, transport: Transport)
    ensures !IsServing(Initial(hasClient).ledger, transport)
  {
  }

  lemma ServingIsTheLastSaid(hasClient: bool, steps: seq<Step>, transport: Transport)
    ensures IsServing(Run(ByteCounting.After, Initial(hasClient), steps).ledger, transport) <==> LastServing(steps, transport)
  {
    var rel := (w: World, before: seq<Step>) => IsServing(w.ledger, transport) <==> LastServing(before, transport);
    forall w, before, l | rel(w, before)
      ensures rel(ByteCounting.After(w, l), before + [l])
    {
      ServingStep(w, l, transport);
      assert (before + [l])[..|before|] == before;
    }
    NothingServesAtFirst(hasClient, transport);
    assert !LastServing([], transport);
    AlwaysOfHistory(ByteCounting.After, rel, Initial(hasClient), steps);
  }

  /** The request that a step makes. */
  function Made(w: World, step: Step): Option<seq<Sample>> {
    if step.Begins? && w.ledger.inFlight.None? then ByteCounting.After(w, step).ledger.inFlight else None
  }

  /**
   * In every run: a request is made exactly when one was asked for, none is under way and there is a
   * client; and it says of each transport counted what was counted and not yet sent, and 1 if the last
   * word on the transport was that it serves, 0 otherwise.
   */
  lemma RequestSaysWhatServes(hasClient: bool, steps: seq<Step>, n: nat)
    requires n < |steps| && steps[n].Begins?
    ensures var w := Run(ByteCounting.After, Initial(hasClient), steps[..n]);
            var request := Made(w, steps[n]);
            && (request.Some? <==> w.ledger.waiting > 0 && w.ledger.inFlight.None? && hasClient)
            && (request.Some? ==>
                  && |request.value| == |w.ledger.order|
                  && forall i :: 0 <= i < |request.value| ==>
                       && var s := request.value[i];
                          && s.transport == w.ledger.order[i]
                          && s.bytes == Pending(w.ledger, s.transport)
                          && s.serving == if LastServing(steps[..n], s.transport) then 1 else 0)
  {
    var w := Run(ByteCounting.After, Initial(hasClient), steps[..n]);
    ClientIsKept(hasClient, steps[..n]);
    if Made(w, steps[n]).Some? {
      forall i | 0 <= i < |w.ledger.order|
        ensures IsServing(w.ledger, w.ledger.order[i]) <==> LastServing(steps[..n], w.ledger.order[i])
      {
        ServingIsTheLastSaid(hasClient, steps[..n], w.ledger.order[i]);
      }
    }
  }

  lemma ClientIsKept(hasClient: bool, steps: seq<Step>)
    ensures Run(ByteCounting.After, Initial(hasClient), steps).hasClient == hasClient
  {
    var inv := (w: World) => w.hasClient == hasClient;
    Always(ByteCounting.After, inv, Initial(hasClient), steps);
  }

  // ---------------------------------------------------------------- how often

  predicate IsPublish(w: World, step: Step) {
    step.Publish?
  }

  /** A queued publish has its turn. */
  predicate TakesTurn(w: World, step: Step) {
    step.Begins? && w.ledger.waiting > 0 && w.ledger.inFlight.None?
  }

  lemma TurnStep(w: World, step: Step)
    ensures ByteCounting.After(w, step).ledger.waiting + (if TakesTurn(w, step) then 1 else 0)
         == w.ledger.waiting + (if IsPublish(w, step) then 1 else 0)
  {
    if step.Answered? && w.ledger.inFlight.Some? {
      RestoreLeavesServing(w.ledger.(inFlight := None), w.ledger.inFlight.value);
    }
  }

  /** Every publish asked for has its turn once, or is waiting for it. */
  lemma {:induction false} EveryPublishHasItsTurn(hasClient: bool, steps: seq<Step>)
    ensures var w := Initial(hasClient);
            Count(ByteCounting.After, IsPublish, w, steps)
            == Run(ByteCounting.After, w, steps).ledger.waiting + Count(ByteCounting.After, TakesTurn, w, steps)
  {
    if steps == [] {
    } else {
      var init := steps[..|steps| - 1];
      EveryPublishHasItsTurn(hasClient, init);
      TurnStep(Run(ByteCounting.After, Initial(hasClient), init), steps[|steps| - 1]);
    }
  }
}
