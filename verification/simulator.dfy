/** A simulator thread with its trajectory buffer, policy context and fragment counter updated in place. */
module Simulator {
  import opened Prelude
  import opened Trajectory
  import opened SimulatorSpec
  import opened Publishing
  import opened Pipeline

  class SimInstance {
    const id: nat
    const trajectoryBuffer: TrajectoryBuffer
    const publisher: RolloutPublisher?
    var ctx: Context
    var rolloutSequence: nat
    ghost var completed: seq<Step>
    ghost var emitted: seq<Rollout>

    ghost predicate Valid(cfg: Config)
      reads this, trajectoryBuffer, publisher
    {
      && trajectoryBuffer.unrollLength == cfg.unroll
      && (cfg.publisher <==> publisher != null)
      && (publisher != null ==> publisher.Valid())
    }

    ghost function Contents(next: Option<int>, running: bool): Sim
      reads this, trajectoryBuffer
    {
      Sim(id, trajectoryBuffer.Contents(), next, ctx, rolloutSequence, running, completed, emitted)
    }

    ghost predicate IsNew()
      reads this
    {
      ctx == ResetContext(0) && rolloutSequence == 0 && completed == [] && emitted == []
    }

    constructor (id: nat, unroll: nat, publisher: RolloutPublisher?)
      ensures this.id == id && this.publisher == publisher && fresh(trajectoryBuffer)
      ensures trajectoryBuffer.unrollLength == unroll && IsNew()
    {
      this.id, this.publisher := id, publisher;
      trajectoryBuffer := new TrajectoryBuffer(unroll);
      ctx, rolloutSequence, completed, emitted := Context([], [], 0), 0, [], [];
    }

    method ResetPolicyContext(version: nat)
      modifies this`ctx
      ensures ctx == ResetContext(version)
    {
      ctx := Context([], [], version);
    }

    /** `run_neural_policy`; the result pair is history for the step being chosen. */
    method RunNeuralPolicy(cfg: Config, e: Evaluation) returns (fed: Option<Recurrent>, reset: bool)
      requires cfg.neural
      modifies this`ctx
      ensures PolicyResult(ctx, fed, reset) == RunPolicy(cfg, old(ctx), e)
    {
      fed, reset := None, false;
      if e.model.None? { return; }
      var m := e.model.value;
      if ctx.version != m.version {
        reset := true;
        ResetPolicyContext(m.version);
      }
      if e.inference.NoSession? { return; }
      if m.recurrent {
        if |ctx.hidden| != m.dim { ctx := ctx.(hidden := Zeros(m.dim)); }
        if |ctx.cell| != m.dim { ctx := ctx.(cell := Zeros(m.dim)); }
      }
      if e.inference.Refused? { return; }
      if m.recurrent { fed := Some(Recurrent(ctx.hidden, ctx.cell)); }
      if e.inference.Ran? && m.recurrent {
        ctx := ctx.(hidden := e.inference.hidden, cell := e.inference.cell);
      }
    }

    method SnapshotIfFragmentStart(cfg: Config)
      modifies trajectoryBuffer
      ensures trajectoryBuffer.Contents() == Snapshot(cfg, old(trajectoryBuffer.Contents()), ctx)
    {
      if !cfg.neural || trajectoryBuffer.buffer != [] || trajectoryBuffer.hasPending { return; }
      if ctx.hidden != [] && |ctx.hidden| == |ctx.cell| {
        trajectoryBuffer.SetInitialRecurrentState(Recurrent(ctx.hidden, ctx.cell));
        return;
      }
      if cfg.lstmDim > 0 {
        trajectoryBuffer.SetInitialRecurrentState(ZeroState(cfg.lstmDim));
      }
    }

    method ActIn(cfg: Config, state: int, e: Evaluation) returns (next: Option<int>)
      modifies this`ctx, trajectoryBuffer
      ensures forall running :: Contents(next, running) == Act(cfg, old(Contents(None, running)), state, e)
    {
      SnapshotIfFragmentStart(cfg);
      var fed, reset := None, false;
      if cfg.neural { fed, reset := RunNeuralPolicy(cfg, e); }
      trajectoryBuffer.SetPendingStep(Pending(state, e.action, e.logProb, fed, reset));
      next := Some(e.action);
    }

    method ReseedUntilReady(cfg: Config, next: Option<int>, resets: seq<ResetOutcome>)
      returns (ready: bool, next': Option<int>)
      modifies this`ctx, trajectoryBuffer
      ensures Contents(next', ready) == Reseed(cfg, old(Contents(next, true)), resets)
    {
      ghost var was := Contents(next, true);
      next' := next;
      for k := 0 to |resets|
        invariant unchanged(this) && unchanged(trajectoryBuffer)
        invariant Reseed(cfg, was, resets) == Reseed(cfg, was.(next := next'), resets[k..])
      {
        assert resets[k..][1..] == resets[k + 1..];
        match resets[k]
        case ResetFailed => return false, next';
        case ResetTo(state, terminal, e) =>
          if !terminal {
            next' := ActIn(cfg, state, e);
            assert Act(cfg, was, state, e) == Contents(next', true);
            return true, next';
          }
          next' := None;
      }
      assert resets[|resets|..] == [];
      return false, next';
    }

    method HandleRolloutReady(cfg: Config, steps: seq<Step>, terminal: bool)
      requires Valid(cfg)
      modifies this`rolloutSequence, this`emitted, trajectoryBuffer, publisher
      ensures Valid(cfg)
      ensures forall n, running :: Contents(n, running) == HandleRollout(cfg, old(Contents(n, running)), steps, terminal)
      ensures publisher != null ==>
        publisher.Contents()
        == OfferNew(publisher.config, old(publisher.Contents()), old(Contents(None, true)), Contents(None, true))
    {
      if publisher == null { return; }
      if steps == [] { return; }
      var sequence := rolloutSequence;
      rolloutSequence := rolloutSequence + 1;
      var initial := trajectoryBuffer.ExtractInitialRecurrentState();
      var rollout := Rollout(id, sequence, terminal, steps, initial);
      emitted := emitted + [rollout];
      var _ := publisher.Enqueue(rollout);
    }

    /** Complete the pending step and end the fragment if it is full or terminal; never raises at a loop head. */
    method CompleteStep(cfg: Config, next: Option<int>, reward: real, terminal: bool)
      requires Valid(cfg) && trajectoryBuffer.hasPending
      modifies this`rolloutSequence, this`completed, this`emitted, trajectoryBuffer, publisher
      ensures Valid(cfg)
      ensures Contents(next, true) == Complete(cfg, old(Contents(next, true)), reward, terminal)
      ensures publisher != null ==>
        publisher.Contents()
        == OfferNew(publisher.config, old(publisher.Contents()), old(Contents(next, true)), Contents(next, true))
    {
      var step := trajectoryBuffer.CompletePendingStep(reward, terminal);
      assert step.Ok?;
      trajectoryBuffer.PushStep(step.value);
      completed := completed + [step.value];
      if trajectoryBuffer.IsFull() || terminal {
        if trajectoryBuffer.buffer != [] {
          var steps := trajectoryBuffer.Extract();
          HandleRolloutReady(cfg, steps, terminal);
        }
      }
    }

    /** `sim_thread_main`: the loop runs until a stop, a failed step, a failed reset, or the end of the script. */
    method SimThreadMain(cfg: Config, version: nat, resets: seq<ResetOutcome>, ticks: seq<Tick>)
      returns (next: Option<int>, running: bool)
      requires Valid(cfg) && IsNew()
      modifies this, trajectoryBuffer, publisher
      ensures Valid(cfg)
      ensures AtLoopHead(Boot(cfg, id, version, resets))
      ensures Contents(next, running) == RunTicks(cfg, Boot(cfg, id, version, resets), ticks)
      ensures publisher != null ==>
        publisher.Contents()
        == OfferAll(cfg, publisher.config, old(publisher.Contents()), Boot(cfg, id, version, resets), ticks)
    {
      trajectoryBuffer.Clear();
      if cfg.neural { ResetPolicyContext(version); }
      running, next := ReseedUntilReady(cfg, None, resets);
      ghost var boot := Contents(next, running);
      BootIsOk(cfg, id, version, resets);
      for k := 0 to |ticks|
        invariant Valid(cfg) && boot == Boot(cfg, id, version, resets)
        invariant Contents(next, running) == RunTicks(cfg, boot, ticks[..k])
        invariant publisher != null ==>
          publisher.Contents() == OfferAll(cfg, publisher.config, old(publisher.Contents()), boot, ticks[..k])
      {
        assert ticks[..k + 1][..k] == ticks[..k];
        if running {
          running, next := LoopBody(cfg, next, ticks[k]);
        }
      }
      assert ticks[..|ticks|] == ticks;
    }

    method LoopBody(cfg: Config, next: Option<int>, tick: Tick) returns (running: bool, next': Option<int>)
      requires Valid(cfg) && AtLoopHead(Contents(next, true))
      modifies this, trajectoryBuffer, publisher
      ensures Valid(cfg)
      ensures Contents(next', running) == Iterate(cfg, old(Contents(next, true)), tick)
      ensures publisher != null ==>
        publisher.Contents()
        == OfferNew(publisher.config, old(publisher.Contents()), old(Contents(next, true)), Contents(next', running))
    {
      if !tick.Stepped? { return false, next; }
      CompleteStep(cfg, next, tick.reward, tick.terminal);
      if tick.terminal {
        trajectoryBuffer.Clear();
        if cfg.neural { ResetPolicyContext(tick.version); }
        running, next' := ReseedUntilReady(cfg, None, tick.resets);
      } else {
        next' := ActIn(cfg, tick.state, tick.eval);
        running := true;
      }
    }
  }
}
