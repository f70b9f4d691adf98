/** A supervisor's queue: the events of one port, served one at a time by the object. */
module PortQueue {
  import opened Wrappers
  import opened HelperFrames
  import opened PortSupervisor
  import opened Runs
  import opened SupervisorSpec
  import opened SupervisorRuns

  /** One queued step. */
  method Handled(s: SrtpPortSupervisor, p: Plant, i: Input) returns (effects: seq<Effect>)
    requires s.Valid() && s.timeouts == p.timeouts && s.View() == p.supervisor
    modifies s
    ensures s.Valid() && (s.View(), effects) == Handle(p, i)
  {
    var a := Answering(p, i.answers);
    match i.event {
      case StartCalled => effects := s.Start(a);
      case FrameArrived(frame, session) => effects := s.HandleFrame(frame, session, a);
      case ProcessDied(_) => effects := [];
      case ExitSeen(session) =>
        effects := [];
        if session !in p.alive {
          effects := s.HandleExit(session, a.now);
        }
      case ErrorSeen(session) => effects := s.HandleError(session, a.now);
      case TimerTicked => effects := s.HandleTick(a);
      case ResetChecked =>
        var replaced;
        replaced, effects := s.HandleFloorReset(a);
      case StopCalled(ack) =>
        effects := s.Shutdown(s.helper.Some? && s.helper.value !in p.alive, ack);
    }
  }

  /**
   * However many events are served, and however the world answers, the object is the
   * supervisor of the run: it holds the lock exactly while producing or stopping, no process
   * but its helper is alive, and once terminated it has none.
   */
  method Serve(s: SrtpPortSupervisor, inputs: seq<Input>) returns (plant: Plant)
    requires s.Valid() && s.View() == New(s.timeouts)
    modifies s
    ensures plant == Run(After, NewPlant(s.timeouts), inputs) && s.View() == plant.supervisor && s.Valid()
    ensures s.lockHeld <==> s.state.Producing? || s.state.Stopping?
    ensures forall x :: x in plant.alive ==> s.helper == Some(x)
    ensures s.state.Terminated? ==> plant.alive == {}
  {
    plant := NewPlant(s.timeouts);
    assert inputs[..0] == [];
    for n := 0 to |inputs|
      invariant s.Valid() && s.timeouts == plant.timeouts && s.View() == plant.supervisor
      invariant plant == Run(After, NewPlant(s.timeouts), inputs[..n])
    {
      RunStep(After, NewPlant(s.timeouts), inputs, n);
      var effects := Handled(s, plant, inputs[n]);
      plant := Booked(plant, inputs[n].event, (s.View(), effects));
    }
    assert inputs[..|inputs|] == inputs;
    AlwaysSound(s.timeouts, inputs);
  }
}
