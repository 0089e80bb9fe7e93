/** Steps, fragments and the per-simulator trajectory buffer. */
module Trajectory {
  import opened Prelude

  datatype Recurrent = Recurrent(hidden: seq<real>, cell: seq<real>)

  // Two history variables travel with each step: the recurrent state that was fed to the model when its action
  // was chosen (None if the model did not run), and whether a new model version reset the context just before.
  datatype Pending = Pending(state: int, action: int, logProb: real, fed: Option<Recurrent>, reset: bool)

  datatype Step = Step(choice: Pending, reward: real, terminal: bool)

  datatype Rollout = Rollout(simId: nat, id: nat, terminal: bool, steps: seq<Step>, initial: Option<Recurrent>)

  datatype Buffer = Buffer(steps: seq<Step>, pending: Option<Pending>, initial: Option<Recurrent>)

  const EmptyBuffer := Buffer([], None, None)

  function SetInitial(b: Buffer, state: Recurrent): Buffer
  {
    if b.initial.None? then b.(initial := Some(state)) else b
  }

  datatype BufferError = NoPendingStep

  class TrajectoryBuffer {
    const unrollLength: nat
    var buffer: seq<Step>
    var pendingStep: Pending
    var hasPending: bool
    var initialRecurrentState: Option<Recurrent>

    ghost function Contents(): Buffer
      reads this
    {
      Buffer(buffer, if hasPending then Some(pendingStep) else None, initialRecurrentState)
    }

    constructor (unrollLength: nat)
      ensures Contents() == EmptyBuffer && this.unrollLength == unrollLength
    {
      this.unrollLength := unrollLength;
      buffer, hasPending, initialRecurrentState := [], false, None;
      pendingStep := Pending(0, 0, 0.0, None, false);
    }

    method PushStep(step: Step)
      modifies this
      ensures Contents() == old(Contents()).(steps := old(buffer) + [step])
    {
      buffer := buffer + [step];
    }

    method SetPendingStep(choice: Pending)
      modifies this
      ensures Contents() == old(Contents()).(pending := Some(choice))
    {
      pendingStep := choice;
      hasPending := true;
    }

    /** The source throws when no step is pending. */
    method CompletePendingStep(reward: real, terminal: bool) returns (r: Result<Step, BufferError>)
      modifies this
      ensures old(Contents()).pending.None? ==> r == Err(NoPendingStep) && Contents() == old(Contents())
      ensures old(Contents()).pending.Some? ==>
        r == Ok(Step(old(Contents()).pending.value, reward, terminal)) && Contents() == old(Contents()).(pending := None)
    {
      if !hasPending { return Err(NoPendingStep); }
      hasPending := false;
      return Ok(Step(pendingStep, reward, terminal));
    }

    predicate IsFull()
      reads this
    {
      |buffer| >= unrollLength
    }

    method Extract() returns (steps: seq<Step>)
      modifies this
      ensures steps == old(buffer) && Contents() == old(Contents()).(steps := [])
    {
      steps := buffer;
      buffer := [];
    }

    method SetInitialRecurrentState(state: Recurrent)
      modifies this
      ensures Contents() == SetInitial(old(Contents()), state)
    {
      if initialRecurrentState.None? {
        initialRecurrentState := Some(state);
      }
    }

    method ExtractInitialRecurrentState() returns (r: Option<Recurrent>)
      modifies this
      ensures r == old(initialRecurrentState) && Contents() == old(Contents()).(initial := None)
    {
      r := initialRecurrentState;
      initialRecurrentState := None;
    }

    method Clear()
      modifies this
      ensures Contents() == EmptyBuffer
    {
      buffer := [];
      hasPending := false;
      pendingStep := Pending(0, 0, 0.0, None, false);
      initialRecurrentState := None;
    }
  }
}
