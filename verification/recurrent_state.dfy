/** The recurrent state a fragment carries, compared with what the model was fed for its first step. */
module RecurrentState {
  import opened Prelude
  import opened Trajectory
  import opened SimulatorSpec

  /** An LSTM policy whose models all have the configured width, with a publisher present. */
  ghost predicate Lstm(cfg: Config)
  {
    cfg.publisher && cfg.neural && cfg.lstmDim > 0
  }

  ghost predicate Matching(e: Evaluation, dim: nat)
  {
    && (e.model.Some? ==> e.model.value.recurrent && e.model.value.dim == dim)
    && (e.inference.Ran? ==> |e.inference.hidden| == |e.inference.cell| == dim)
  }

  ghost predicate MatchingResets(resets: seq<ResetOutcome>, dim: nat)
  {
    forall k :: 0 <= k < |resets| && resets[k].ResetTo? ==> Matching(resets[k].eval, dim)
  }

  ghost predicate MatchingTick(t: Tick, dim: nat)
  {
    t.Stepped? ==> Matching(t.eval, dim) && MatchingResets(t.resets, dim)
  }

  ghost predicate ContextOk(ctx: Context, dim: nat)
  {
    (ctx.hidden == [] && ctx.cell == []) || |ctx.hidden| == |ctx.cell| == dim
  }

  /** The choice that starts the fragment now being collected. */
  function FirstChoice(b: Buffer): Option<Pending>
  {
    if b.steps != [] then Some(b.steps[0].choice) else b.pending
  }

  /** The snapshot is what the model was fed, unless a new version reset a context that was not zero. */
  ghost predicate Carries(initial: Option<Recurrent>, p: Pending, dim: nat)
  {
    && initial.Some?
    && (p.fed.Some? ==> (p.fed.value == initial.value <==> (!p.reset || initial.value == ZeroState(dim))))
  }

  ghost predicate CarriesZeros(initial: Option<Recurrent>, p: Pending, dim: nat)
  {
    initial == Some(ZeroState(dim)) && (p.fed.Some? ==> p.fed.value == ZeroState(dim))
  }

  ghost predicate AtEpisodeStart(emitted: seq<Rollout>)
  {
    emitted == [] || emitted[|emitted| - 1].terminal
  }

  ghost predicate EmittedOk(emitted: seq<Rollout>, dim: nat)
  {
    forall k :: 0 <= k < |emitted| ==>
      && emitted[k].steps != []
      && Carries(emitted[k].initial, emitted[k].steps[0].choice, dim)
      && (AtEpisodeStart(emitted[..k]) ==> CarriesZeros(emitted[k].initial, emitted[k].steps[0].choice, dim))
  }

  /** With nothing collected there is no snapshot yet, so the "already set" guard never discards one. */
  ghost predicate CollectingOk(s: Sim, dim: nat)
  {
    var first := FirstChoice(s.buffer);
    if first.None? then
      s.buffer.initial.None? && (AtEpisodeStart(s.emitted) ==> s.ctx.hidden == [])
    else
      && Carries(s.buffer.initial, first.value, dim)
      && (AtEpisodeStart(s.emitted) ==> CarriesZeros(s.buffer.initial, first.value, dim))
  }

  ghost predicate RecurrentOk(s: Sim, dim: nat)
  {
    ContextOk(s.ctx, dim) && EmittedOk(s.emitted, dim) && CollectingOk(s, dim)
  }

  lemma PolicyFeeds(cfg: Config, ctx: Context, e: Evaluation)
    requires Lstm(cfg) && ContextOk(ctx, cfg.lstmDim) && Matching(e, cfg.lstmDim)
    ensures var p := RunPolicy(cfg, ctx, e);
      && ContextOk(p.ctx, cfg.lstmDim)
      && (p.fed.Some? && p.reset ==> p.fed.value == ZeroState(cfg.lstmDim))
      && (p.fed.Some? && !p.reset ==>
            p.fed.value == if ctx.hidden == [] then ZeroState(cfg.lstmDim) else Recurrent(ctx.hidden, ctx.cell))
  {
  }

  lemma ActKeeps(cfg: Config, s: Sim, state: int, e: Evaluation)
    requires Lstm(cfg) && RecurrentOk(s, cfg.lstmDim) && s.buffer.pending.None? && Matching(e, cfg.lstmDim)
    ensures RecurrentOk(Act(cfg, s, state, e), cfg.lstmDim)
  {
    PolicyFeeds(cfg, s.ctx, e);
    assert s.ctx.hidden == [] <==> s.ctx.cell == [];
  }

  lemma {:induction false} ReseedKeeps(cfg: Config, s: Sim, resets: seq<ResetOutcome>)
    requires Lstm(cfg) && RecurrentOk(s, cfg.lstmDim) && s.buffer.pending.None? && MatchingResets(resets, cfg.lstmDim)
    ensures RecurrentOk(Reseed(cfg, s, resets), cfg.lstmDim)
    decreases |resets|
  {
    if resets != [] && resets[0].ResetTo? {
      if resets[0].terminal {
        ReseedKeeps(cfg, s.(next := None), resets[1..]);
      } else {
        ActKeeps(cfg, s, resets[0].state, resets[0].eval);
      }
    }
  }

  lemma EmitKeeps(emitted: seq<Rollout>, r: Rollout, dim: nat)
    requires EmittedOk(emitted, dim) && r.steps != [] && Carries(r.initial, r.steps[0].choice, dim)
    requires AtEpisodeStart(emitted) ==> CarriesZeros(r.initial, r.steps[0].choice, dim)
    ensures EmittedOk(emitted + [r], dim)
  {
    var all := emitted + [r];
    assert all[..|emitted|] == emitted;
    assert forall k :: 0 <= k < |emitted| ==> all[..k] == emitted[..k];
  }

  lemma CompleteKeeps(cfg: Config, s: Sim, reward: real, terminal: bool)
    requires Lstm(cfg) && RecurrentOk(s, cfg.lstmDim) && s.buffer.pending.Some?
    ensures var s' := Complete(cfg, s, reward, terminal);
      && ContextOk(s'.ctx, cfg.lstmDim) && EmittedOk(s'.emitted, cfg.lstmDim) && s'.buffer.pending.None?
      && (!terminal ==> RecurrentOk(s', cfg.lstmDim))
      && (terminal ==> AtEpisodeStart(s'.emitted))
  {
    var steps := s.buffer.steps + [Step(s.buffer.pending.value, reward, terminal)];
    assert steps[0].choice == FirstChoice(s.buffer).value;
    if |steps| >= cfg.unroll || terminal {
      EmitKeeps(s.emitted, Rollout(s.id, s.rolloutSeq, terminal, steps, s.buffer.initial), cfg.lstmDim);
    }
  }

  lemma IterateKeeps(cfg: Config, s: Sim, t: Tick)
    requires Lstm(cfg) && RecurrentOk(s, cfg.lstmDim) && AtLoopHead(s) && MatchingTick(t, cfg.lstmDim)
    ensures RecurrentOk(Iterate(cfg, s, t), cfg.lstmDim)
  {
    if s.running && t.Stepped? {
      CompleteKeeps(cfg, s, t.reward, t.terminal);
      var s1 := Complete(cfg, s, t.reward, t.terminal);
      if t.terminal {
        ReseedKeeps(cfg, s1.(next := None, buffer := EmptyBuffer, ctx := ResetContext(t.version)), t.resets);
      } else {
        ActKeeps(cfg, s1, t.state, t.eval);
      }
    }
  }

  /**
   In every run of a thread with an LSTM policy, a fragment carries exactly the state the model was fed for its
   first step: always at the start of an episode (zeros), and later iff no version change intervened
   or the snapshot was zero anyway.
   */
  lemma {:induction false} FragmentsCarryTheirState(
    cfg: Config, id: nat, version: nat, resets: seq<ResetOutcome>, ticks: seq<Tick>)
    requires Lstm(cfg) && MatchingResets(resets, cfg.lstmDim)
    requires forall k :: 0 <= k < |ticks| ==> MatchingTick(ticks[k], cfg.lstmDim)
    ensures AtLoopHead(Boot(cfg, id, version, resets))
    ensures RecurrentOk(RunTicks(cfg, Boot(cfg, id, version, resets), ticks), cfg.lstmDim)
  {
    BootIsOk(cfg, id, version, resets);
    if ticks == [] {
      ReseedKeeps(cfg, NewSim(cfg, id, version), resets);
    } else {
      var before := ticks[..|ticks| - 1];
      FragmentsCarryTheirState(cfg, id, version, resets, before);
      IterateKeeps(cfg, RunTicks(cfg, Boot(cfg, id, version, resets), before), ticks[|ticks| - 1]);
    }
  }

  /** Without a publisher a full buffer keeps its old snapshot, and the guard then discards the next one. */
  lemma WithoutPublisherSnapshotsAreDiscarded(cfg: Config, s: Sim, reward: real, state: int, e: Evaluation)
    requires !cfg.publisher && s.buffer.pending.Some? && s.buffer.initial.Some? && |s.buffer.steps| + 1 >= cfg.unroll
    ensures var s1 := Complete(cfg, s, reward, false);
      s1.buffer.steps == [] && s1.buffer.pending.None? && Act(cfg, s1, state, e).buffer.initial == s.buffer.initial
  {
  }
}
