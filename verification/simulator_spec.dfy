/**
 One simulator thread as a value: how an iteration of its loop cuts the step stream into fragments and
 tracks the recurrent state of the policy. Simulator and inference outcomes are inputs.
 */
module SimulatorSpec {
  import opened Prelude
  import opened Trajectory

  // lstmDim is 0 when the configured policy is not an LSTM.
  datatype Config = Config(unroll: nat, neural: bool, lstmDim: nat, publisher: bool)

  datatype Context = Context(hidden: seq<real>, cell: seq<real>, version: nat)

  datatype Model = Model(version: nat, recurrent: bool, dim: nat)

  // NoSession and Refused leave the model unrun; Refused happens after the context was sized.
  datatype Inference = NoSession | Refused | Crashed | Ran(hidden: seq<real>, cell: seq<real>, finite: bool)

  // The model that is current when an action is chosen, what inference does, and the action that results
  // (the model's, or the fallback's when the model is missing or fails).
  datatype Evaluation = Evaluation(model: Option<Model>, inference: Inference, action: int, logProb: real)

  datatype ResetOutcome = ResetFailed | ResetTo(state: int, terminal: bool, eval: Evaluation)

  // `version` is the policy version read when a terminal step resets the context.
  datatype Tick =
    | StopRequested
    | StepFailed
    | Stepped(state: int, reward: real, terminal: bool, version: nat, eval: Evaluation, resets: seq<ResetOutcome>)

  // `completed` and `emitted` are history: every completed step and every fragment handed to the publisher.
  datatype Sim = Sim(
    id: nat, buffer: Buffer, next: Option<int>, ctx: Context, rolloutSeq: nat, running: bool,
    completed: seq<Step>, emitted: seq<Rollout>)

  function Zeros(n: nat): (z: seq<real>)
    ensures |z| == n && forall i :: 0 <= i < n ==> z[i] == 0.0
  {
    seq(n, _ => 0.0)
  }

  function ZeroState(n: nat): Recurrent { Recurrent(Zeros(n), Zeros(n)) }

  function ResetContext(version: nat): Context { Context([], [], version) }

  function Allocate(ctx: Context, m: Model): Context
  {
    if !m.recurrent then ctx
    else ctx.(hidden := if |ctx.hidden| != m.dim then Zeros(m.dim) else ctx.hidden,
              cell := if |ctx.cell| != m.dim then Zeros(m.dim) else ctx.cell)
  }

  datatype PolicyResult = PolicyResult(ctx: Context, fed: Option<Recurrent>, reset: bool)

  /** `run_neural_policy` and `evaluate_encoded`, as far as the context is concerned. */
  function RunPolicy(cfg: Config, ctx: Context, e: Evaluation): PolicyResult
  {
    if !cfg.neural || e.model.None? then PolicyResult(ctx, None, false)
    else
      var m := e.model.value;
      var reset := ctx.version != m.version;
      var entered := if reset then ResetContext(m.version) else ctx;
      if e.inference.NoSession? then PolicyResult(entered, None, reset)
      else
        var ready := Allocate(entered, m);
        var fed := if m.recurrent && !e.inference.Refused? then Some(Recurrent(ready.hidden, ready.cell)) else None;
        match e.inference
        case Ran(hidden, cell, _) =>
          PolicyResult(if m.recurrent then ready.(hidden := hidden, cell := cell) else ready, fed, reset)
        case _ => PolicyResult(ready, fed, reset)
  }

  /** `snapshot_recurrent_state_if_fragment_start` */
  function Snapshot(cfg: Config, b: Buffer, ctx: Context): Buffer
  {
    if !cfg.neural || b.steps != [] || b.pending.Some? then b
    else if ctx.hidden != [] && |ctx.hidden| == |ctx.cell| then SetInitial(b, Recurrent(ctx.hidden, ctx.cell))
    else if cfg.lstmDim > 0 then SetInitial(b, ZeroState(cfg.lstmDim))
    else b
  }

  /** Choose the next action in `state` and leave it pending. */
  function Act(cfg: Config, s: Sim, state: int, e: Evaluation): Sim
  {
    var b := Snapshot(cfg, s.buffer, s.ctx);
    var p := RunPolicy(cfg, s.ctx, e);
    s.(buffer := b.(pending := Some(Pending(state, e.action, e.logProb, p.fed, p.reset))), ctx := p.ctx, next := Some(e.action))
  }

  /** `reseed_until_ready`; running out of outcomes means that a stop was requested. */
  function Reseed(cfg: Config, s: Sim, resets: seq<ResetOutcome>): Sim
    decreases |resets|
  {
    if resets == [] || resets[0].ResetFailed? then s.(running := false)
    else if !resets[0].terminal then Act(cfg, s, resets[0].state, resets[0].eval)
    else Reseed(cfg, s.(next := None), resets[1..])
  }

  /** `handle_rollout_ready`: without a publisher the steps are dropped and the snapshot stays behind. */
  function HandleRollout(cfg: Config, s: Sim, steps: seq<Step>, terminal: bool): Sim
  {
    if !cfg.publisher || steps == [] then s
    else
      s.(emitted := s.emitted + [Rollout(s.id, s.rolloutSeq, terminal, steps, s.buffer.initial)],
         rolloutSeq := s.rolloutSeq + 1, buffer := s.buffer.(initial := None))
  }

  /** What the source relies on whenever its loop starts over: `complete_pending_step` would throw otherwise. */
  predicate AtLoopHead(s: Sim)
  {
    s.running ==> s.buffer.pending.Some? && s.next.Some?
  }

  /** The pending step gets its reward and joins the buffer; a full buffer or a terminal step ends the fragment. */
  function Complete(cfg: Config, s: Sim, reward: real, terminal: bool): Sim
    requires s.buffer.pending.Some?
  {
    var step := Step(s.buffer.pending.value, reward, terminal);
    var steps := s.buffer.steps + [step];
    var s1 := s.(buffer := s.buffer.(steps := steps, pending := None), completed := s.completed + [step]);
    if |steps| >= cfg.unroll || terminal
    then HandleRollout(cfg, s1.(buffer := s1.buffer.(steps := [])), steps, terminal)
    else s1
  }

  function Iterate(cfg: Config, s: Sim, t: Tick): Sim
    requires AtLoopHead(s)
  {
    if !s.running then s
    else match t
      case StopRequested => s.(running := false)
      case StepFailed => s.(running := false)
      case Stepped(state, reward, terminal, version, eval, resets) =>
        var s1 := Complete(cfg, s, reward, terminal);
        if terminal then
          var ctx := if cfg.neural then ResetContext(version) else s1.ctx;
          Reseed(cfg, s1.(next := None, buffer := EmptyBuffer, ctx := ctx), resets)
        else
          Act(cfg, s1, state, eval)
  }

  function NewSim(cfg: Config, id: nat, version: nat): Sim
  {
    Sim(id, EmptyBuffer, None, ResetContext(if cfg.neural then version else 0), 0, true, [], [])
  }

  /** A simulator thread right after its start-up code. */
  function Boot(cfg: Config, id: nat, version: nat, resets: seq<ResetOutcome>): Sim
  {
    Reseed(cfg, NewSim(cfg, id, version), resets)
  }

  // ----- invariants -----

  function Max(a: nat, b: nat): nat { if a >= b then a else b }

  function StepsOf(rs: seq<Rollout>): seq<Step>
  {
    if rs == [] then [] else StepsOf(rs[..|rs| - 1]) + rs[|rs| - 1].steps
  }

  /** The number of completed steps before fragment k. */
  function Offset(emitted: seq<Rollout>, k: nat): nat
    requires k <= |emitted|
  {
    |StepsOf(emitted[..k])|
  }

  /** Non-empty, at most max(1, unroll) long, short only when terminal, terminal at most at its end. */
  ghost predicate FragmentOk(cfg: Config, r: Rollout)
  {
    && 1 <= |r.steps| <= Max(1, cfg.unroll)
    && (|r.steps| < cfg.unroll ==> r.steps[|r.steps| - 1].terminal)
    && (forall k :: 0 <= k < |r.steps| - 1 ==> !r.steps[k].terminal)
    && (r.terminal <==> r.steps[|r.steps| - 1].terminal)
  }

  ghost predicate ShapeOk(cfg: Config, s: Sim)
  {
    && AtLoopHead(s)
    && |s.buffer.steps| < Max(1, cfg.unroll)
    && (forall k :: 0 <= k < |s.buffer.steps| ==> !s.buffer.steps[k].terminal)
    && (forall k :: 0 <= k < |s.emitted| ==> FragmentOk(cfg, s.emitted[k]))
  }

  /** Nothing is lost or reordered between completed steps, fragments and buffer; ids count fragments. */
  ghost predicate ConservationOk(s: Sim)
  {
    && s.completed == StepsOf(s.emitted) + s.buffer.steps
    && s.rolloutSeq == |s.emitted|
    && (forall k :: 0 <= k < |s.emitted| ==> s.emitted[k].id == k && s.emitted[k].simId == s.id)
  }

  lemma StepsOfSnoc(rs: seq<Rollout>, r: Rollout)
    ensures StepsOf(rs + [r]) == StepsOf(rs) + r.steps
  {
    assert (rs + [r])[..|rs|] == rs;
  }

  /** Reset outcomes touch neither history nor completed steps, and leave the loop ready or stopped. */
  lemma {:induction false} ReseedIsQuiet(cfg: Config, s: Sim, resets: seq<ResetOutcome>)
    requires s.buffer == EmptyBuffer
    ensures var s' := Reseed(cfg, s, resets);
      && s'.id == s.id && s'.completed == s.completed && s'.emitted == s.emitted && s'.rolloutSeq == s.rolloutSeq
      && s'.buffer.steps == [] && AtLoopHead(s')
    decreases |resets|
  {
    if resets != [] && !resets[0].ResetFailed? && resets[0].terminal {
      ReseedIsQuiet(cfg, s.(next := None), resets[1..]);
    }
  }

  lemma CompleteConserves(cfg: Config, s: Sim, reward: real, terminal: bool)
    requires cfg.publisher && ConservationOk(s) && s.buffer.pending.Some?
    ensures ConservationOk(Complete(cfg, s, reward, terminal))
    ensures terminal ==> Complete(cfg, s, reward, terminal).buffer.steps == []
  {
    var step := Step(s.buffer.pending.value, reward, terminal);
    var steps := s.buffer.steps + [step];
    var s' := Complete(cfg, s, reward, terminal);
    if |steps| >= cfg.unroll || terminal {
      StepsOfSnoc(s.emitted, s'.emitted[|s.emitted|]);
    }
  }

  lemma IterateConserves(cfg: Config, s: Sim, t: Tick)
    requires cfg.publisher && AtLoopHead(s) && ConservationOk(s)
    ensures ConservationOk(Iterate(cfg, s, t)) && AtLoopHead(Iterate(cfg, s, t))
  {
    if s.running && t.Stepped? {
      CompleteConserves(cfg, s, t.reward, t.terminal);
      if t.terminal {
        var s1 := Complete(cfg, s, t.reward, t.terminal);
        var ctx := if cfg.neural then ResetContext(t.version) else s1.ctx;
        ReseedIsQuiet(cfg, s1.(next := None, buffer := EmptyBuffer, ctx := ctx), t.resets);
      }
    }
  }

  lemma CompleteShapes(cfg: Config, s: Sim, reward: real, terminal: bool)
    requires ShapeOk(cfg, s) && s.buffer.pending.Some?
    ensures var s' := Complete(cfg, s, reward, terminal);
      && |s'.buffer.steps| < Max(1, cfg.unroll)
      && (forall k :: 0 <= k < |s'.buffer.steps| ==> !s'.buffer.steps[k].terminal)
      && (forall k :: 0 <= k < |s'.emitted| ==> FragmentOk(cfg, s'.emitted[k]))
  {
  }

  /** Every iteration finds a pending step and a next action, and every fragment it emits has the right shape. */
  lemma IterateShapes(cfg: Config, s: Sim, t: Tick)
    requires ShapeOk(cfg, s)
    ensures ShapeOk(cfg, Iterate(cfg, s, t))
  {
    if s.running && t.Stepped? {
      CompleteShapes(cfg, s, t.reward, t.terminal);
      if t.terminal {
        var s1 := Complete(cfg, s, t.reward, t.terminal);
        var ctx := if cfg.neural then ResetContext(t.version) else s1.ctx;
        ReseedIsQuiet(cfg, s1.(next := None, buffer := EmptyBuffer, ctx := ctx), t.resets);
      }
    }
  }

  lemma BootIsOk(cfg: Config, id: nat, version: nat, resets: seq<ResetOutcome>)
    ensures ShapeOk(cfg, Boot(cfg, id, version, resets)) && ConservationOk(Boot(cfg, id, version, resets))
    ensures Boot(cfg, id, version, resets).id == id && Boot(cfg, id, version, resets).emitted == []
  {
    ReseedIsQuiet(cfg, NewSim(cfg, id, version), resets);
  }

  function RunTicks(cfg: Config, s: Sim, ticks: seq<Tick>): (s': Sim)
    requires AtLoopHead(s)
    ensures AtLoopHead(s')
  {
    if ticks == [] then s
    else
      var before := RunTicks(cfg, s, ticks[..|ticks| - 1]);
      IterateStaysAtHead(cfg, before, ticks[|ticks| - 1]);
      Iterate(cfg, before, ticks[|ticks| - 1])
  }

  lemma IterateStaysAtHead(cfg: Config, s: Sim, t: Tick)
    requires AtLoopHead(s)
    ensures AtLoopHead(Iterate(cfg, s, t))
  {
    if s.running && t.Stepped? && t.terminal {
      var s1 := Complete(cfg, s, t.reward, t.terminal);
      var ctx := if cfg.neural then ResetContext(t.version) else s1.ctx;
      ReseedIsQuiet(cfg, s1.(next := None, buffer := EmptyBuffer, ctx := ctx), t.resets);
    }
  }

  /** All runs of a simulator thread: fragment shapes, and conservation when a publisher is present. */
  lemma {:induction false} ThreadsCutFragments(cfg: Config, id: nat, version: nat, resets: seq<ResetOutcome>, ticks: seq<Tick>)
    ensures AtLoopHead(Boot(cfg, id, version, resets))
    ensures ShapeOk(cfg, RunTicks(cfg, Boot(cfg, id, version, resets), ticks))
    ensures cfg.publisher ==> ConservationOk(RunTicks(cfg, Boot(cfg, id, version, resets), ticks))
  {
    BootIsOk(cfg, id, version, resets);
    if ticks != [] {
      var before := ticks[..|ticks| - 1];
      ThreadsCutFragments(cfg, id, version, resets, before);
      var s := RunTicks(cfg, Boot(cfg, id, version, resets), before);
      IterateShapes(cfg, s, ticks[|ticks| - 1]);
      if cfg.publisher {
        IterateConserves(cfg, s, ticks[|ticks| - 1]);
      }
    }
  }
}
