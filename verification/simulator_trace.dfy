/**
 What a simulator thread records, told from its inputs alone: which choice and which outcome each completed step
 holds, what the policy was fed for it, and which recurrent state a fragment carries.
 */
module SimulatorTrace {
  import opened Prelude
  import opened Trajectory
  import opened SimulatorSpec
  import opened RecurrentState

  // Everything a thread is given: the policy version and reset outcomes at its start, and its ticks.
  datatype Script = Script(version: nat, resets: seq<ResetOutcome>, ticks: seq<Tick>)

  // `start` is the policy version at the start of an episode, for the first choice of one.
  datatype Choice = Choice(state: int, eval: Evaluation, start: Option<nat>)

  /** The first reset outcome that does not end at once, unless a reset fails before. */
  function Ready(resets: seq<ResetOutcome>, version: nat): Option<Choice>
  {
    match First(resets, (r: ResetOutcome) => r.ResetFailed? || !r.terminal)
    case None => None
    case Some(i) =>
      if resets[i].ResetFailed? then None else Some(Choice(resets[i].state, resets[i].eval, Some(version)))
  }

  /** The choice made after k ticks: in the state of the last tick, or of the reset that follows a terminal one. */
  function ChoiceAt(r: Script, k: nat): Option<Choice>
    requires k <= |r.ticks|
  {
    if k == 0 then Ready(r.resets, r.version)
    else match r.ticks[k - 1]
      case Stepped(state, _, terminal, version, eval, resets) =>
        if terminal then Ready(resets, version) else Some(Choice(state, eval, None))
      case _ => None
  }

  // ----- choices and outcomes -----

  ghost predicate Makes(p: Pending, c: Choice)
  {
    p.state == c.state && p.action == c.eval.action && p.logProb == c.eval.logProb
  }

  /** The k-th completed step is the k-th choice with the reward and the terminal flag of the k-th tick. */
  ghost predicate StepIsTick(r: Script, k: nat, step: Step)
  {
    && k < |r.ticks| && r.ticks[k].Stepped? && ChoiceAt(r, k).Some? && Makes(step.choice, ChoiceAt(r, k).value)
    && step.reward == r.ticks[k].reward && step.terminal == r.ticks[k].terminal
  }

  /** After m ticks: every tick completed one step until one was no step or no choice followed it. */
  ghost predicate Follows(s: Sim, r: Script, m: nat)
    requires m <= |r.ticks|
  {
    && |s.completed| <= m
    && (forall k :: 0 <= k < |s.completed| ==> StepIsTick(r, k, s.completed[k]))
    && if s.running then
         && |s.completed| == m && ChoiceAt(r, m).Some?
         && s.buffer.pending.Some? && Makes(s.buffer.pending.value, ChoiceAt(r, m).value)
         && s.next == Some(s.buffer.pending.value.action)
       else
         ChoiceAt(r, |s.completed|).None? || (|s.completed| < m && !r.ticks[|s.completed|].Stepped?)
  }

  lemma {:induction false} ReseedMakes(cfg: Config, s: Sim, resets: seq<ResetOutcome>, version: nat)
    requires s.running
    ensures var s' := Reseed(cfg, s, resets); var c := Ready(resets, version);
      && s'.completed == s.completed && (s'.running <==> c.Some?)
      && (c.Some? ==> s'.buffer.pending.Some? && Makes(s'.buffer.pending.value, c.value)
                      && s'.next == Some(s'.buffer.pending.value.action))
    decreases |resets|
  {
    if resets != [] && resets[0].ResetTo? && resets[0].terminal {
      ReadySkips(resets, version);
      ReseedMakes(cfg, s.(next := None), resets[1..], version);
    }
  }

  lemma ReadySkips(resets: seq<ResetOutcome>, version: nat)
    requires resets != [] && resets[0].ResetTo? && resets[0].terminal
    ensures Ready(resets, version) == Ready(resets[1..], version)
  {
  }

  lemma CompleteRecords(cfg: Config, s: Sim, reward: real, terminal: bool)
    requires s.buffer.pending.Some?
    ensures var s' := Complete(cfg, s, reward, terminal);
      s'.completed == s.completed + [Step(s.buffer.pending.value, reward, terminal)] && s'.running == s.running
  {
  }

  lemma IterateFollows(cfg: Config, s: Sim, r: Script, m: nat)
    requires m < |r.ticks| && Follows(s, r, m) && AtLoopHead(s)
    ensures Follows(Iterate(cfg, s, r.ticks[m]), r, m + 1)
  {
    var t := r.ticks[m];
    if s.running && t.Stepped? {
      CompleteRecords(cfg, s, t.reward, t.terminal);
      if t.terminal {
        var s1 := Complete(cfg, s, t.reward, t.terminal);
        var ctx := if cfg.neural then ResetContext(t.version) else s1.ctx;
        ReseedMakes(cfg, s1.(next := None, buffer := EmptyBuffer, ctx := ctx), t.resets, t.version);
      }
    }
  }

  lemma {:induction false} PrefixesFollow(cfg: Config, id: nat, r: Script, m: nat)
    requires m <= |r.ticks|
    ensures AtLoopHead(Boot(cfg, id, r.version, r.resets))
    ensures Follows(RunTicks(cfg, Boot(cfg, id, r.version, r.resets), r.ticks[..m]), r, m)
  {
    BootIsOk(cfg, id, r.version, r.resets);
    var boot := Boot(cfg, id, r.version, r.resets);
    if m == 0 {
      ReseedMakes(cfg, NewSim(cfg, id, r.version), r.resets, r.version);
    } else {
      PrefixesFollow(cfg, id, r, m - 1);
      assert r.ticks[..m][..m - 1] == r.ticks[..m - 1];
      IterateFollows(cfg, RunTicks(cfg, boot, r.ticks[..m - 1]), r, m - 1);
    }
  }

  /**
   In every run, each completed step has the choice, the reward and the terminal flag that the inputs say, and the
   loop steps its simulator with the pending step's action.
   */
  lemma StepsAreTicks(cfg: Config, id: nat, r: Script)
    ensures AtLoopHead(Boot(cfg, id, r.version, r.resets))
    ensures Follows(RunTicks(cfg, Boot(cfg, id, r.version, r.resets), r.ticks), r, |r.ticks|)
  {
    PrefixesFollow(cfg, id, r, |r.ticks|);
    assert r.ticks[..|r.ticks|] == r.ticks;
  }

  // ----- what the policy is fed -----

  // The model version that was seen last, and what the model returned since that version or the episode began.
  datatype Memory = Memory(version: nat, last: Option<Recurrent>)

  function Entering(m: Memory, e: Evaluation): Memory
  {
    if e.model.Some? && e.model.value.version != m.version then Memory(e.model.value.version, None) else m
  }

  function After(m: Memory, e: Evaluation): Memory
  {
    if e.model.Some? && e.inference.Ran?
    then Memory(e.model.value.version, Some(Recurrent(e.inference.hidden, e.inference.cell)))
    else Entering(m, e)
  }

  /** What the thread remembers just before choice k. */
  function Before(r: Script, k: nat): Memory
    requires k <= |r.ticks|
  {
    var c := ChoiceAt(r, k);
    if c.Some? && c.value.start.Some? then Memory(c.value.start.value, None)
    else if k > 0 && ChoiceAt(r, k - 1).Some? then After(Before(r, k - 1), ChoiceAt(r, k - 1).value.eval)
    else Memory(0, None)
  }

  function OrZeros(last: Option<Recurrent>, dim: nat): Recurrent
  {
    if last.Some? then last.value else ZeroState(dim)
  }

  function Fed(m: Memory, e: Evaluation, dim: nat): Option<Recurrent>
  {
    if e.model.Some? && (e.inference.Crashed? || e.inference.Ran?) then Some(OrZeros(Entering(m, e).last, dim)) else None
  }

  ghost predicate Holds(ctx: Context, m: Memory, dim: nat)
  {
    && ContextOk(ctx, dim) && ctx.version == m.version
    && (if ctx.hidden == [] then m.last.None? else Recurrent(ctx.hidden, ctx.cell) == OrZeros(m.last, dim))
  }

  lemma PolicyRemembers(cfg: Config, ctx: Context, m: Memory, e: Evaluation)
    requires Lstm(cfg) && Holds(ctx, m, cfg.lstmDim) && Matching(e, cfg.lstmDim)
    ensures var p := RunPolicy(cfg, ctx, e);
      && Holds(p.ctx, After(m, e), cfg.lstmDim) && p.fed == Fed(m, e, cfg.lstmDim)
      && (p.reset <==> Entering(m, e) != m)
  {
  }

  lemma ActRemembers(cfg: Config, s: Sim, m: Memory, state: int, e: Evaluation)
    requires Lstm(cfg) && Holds(s.ctx, m, cfg.lstmDim) && Matching(e, cfg.lstmDim) && s.buffer.pending.None?
    ensures var s' := Act(cfg, s, state, e);
      && s'.buffer.pending.Some? && s'.buffer.pending.value.fed == Fed(m, e, cfg.lstmDim)
      && (s'.buffer.pending.value.reset <==> Entering(m, e) != m)
      && Holds(s'.ctx, After(m, e), cfg.lstmDim)
      && s' == s.(buffer := s'.buffer, ctx := s'.ctx, next := s'.next) && s'.buffer.steps == s.buffer.steps
      && s'.buffer.initial == if s.buffer.steps == [] && s.buffer.initial.None? then Some(OrZeros(m.last, cfg.lstmDim))
                              else s.buffer.initial
  {
    PolicyRemembers(cfg, s.ctx, m, e);
  }

  lemma {:induction false} ReseedRemembers(cfg: Config, s: Sim, resets: seq<ResetOutcome>, version: nat)
    requires Lstm(cfg) && s.running && s.buffer == EmptyBuffer && s.ctx == ResetContext(version)
    requires MatchingResets(resets, cfg.lstmDim)
    ensures var s' := Reseed(cfg, s, resets); var c := Ready(resets, version); var m := Memory(version, None);
      && s'.completed == s.completed && s'.emitted == s.emitted && (s'.running <==> c.Some?)
      && (c.Some? ==>
            && s'.buffer.pending.Some? && s'.buffer.pending.value.fed == Fed(m, c.value.eval, cfg.lstmDim)
            && (s'.buffer.pending.value.reset <==> Entering(m, c.value.eval) != m)
            && Holds(s'.ctx, After(m, c.value.eval), cfg.lstmDim)
            && s'.buffer.steps == [] && s'.buffer.initial == Some(ZeroState(cfg.lstmDim)))
    decreases |resets|
  {
    if resets != [] && resets[0].ResetTo? {
      if resets[0].terminal {
        ReadySkips(resets, version);
        ReseedRemembers(cfg, s.(next := None), resets[1..], version);
      } else {
        ActRemembers(cfg, s, Memory(version, None), resets[0].state, resets[0].eval);
      }
    }
  }

  /** Step k was fed what the thread remembered. */
  ghost predicate FedAt(r: Script, k: nat, p: Pending, dim: nat)
  {
    && k <= |r.ticks| && ChoiceAt(r, k).Some?
    && p.fed == Fed(Before(r, k), ChoiceAt(r, k).value.eval, dim)
    && (p.reset <==> Entering(Before(r, k), ChoiceAt(r, k).value.eval) != Before(r, k))
  }

  /** What was remembered before choice k, as a fragment that starts there carries it. */
  ghost predicate SnapshotAt(r: Script, k: nat, initial: Option<Recurrent>, dim: nat)
  {
    k <= |r.ticks| && initial == Some(OrZeros(Before(r, k).last, dim))
  }

  ghost predicate HistoryRemembers(completed: seq<Step>, emitted: seq<Rollout>, r: Script, dim: nat)
  {
    && (forall k :: 0 <= k < |completed| ==> FedAt(r, k, completed[k].choice, dim))
    && (forall k :: 0 <= k < |emitted| ==> SnapshotAt(r, Offset(emitted, k), emitted[k].initial, dim))
  }

  ghost predicate ChoiceRemembers(s: Sim, r: Script, n: nat, dim: nat)
  {
    && s.buffer.pending.Some? && FedAt(r, n, s.buffer.pending.value, dim)
    && Holds(s.ctx, After(Before(r, n), ChoiceAt(r, n).value.eval), dim)
    && |s.buffer.steps| <= n && SnapshotAt(r, n - |s.buffer.steps|, s.buffer.initial, dim)
  }

  ghost predicate Remembers(s: Sim, r: Script, dim: nat)
  {
    && HistoryRemembers(s.completed, s.emitted, r, dim)
    && (s.running ==> ChoiceRemembers(s, r, |s.completed|, dim))
  }

  lemma EmitRemembers(completed: seq<Step>, emitted: seq<Rollout>, last: Rollout, r: Script, dim: nat)
    requires HistoryRemembers(completed, emitted, r, dim)
    requires SnapshotAt(r, |StepsOf(emitted)|, last.initial, dim)
    ensures HistoryRemembers(completed, emitted + [last], r, dim)
  {
    var all := emitted + [last];
    forall k | 0 <= k < |all| ensures SnapshotAt(r, Offset(all, k), all[k].initial, dim) {
      assert k < |emitted| ==> all[..k] == emitted[..k];
      assert all[..|emitted|] == emitted;
    }
  }

  lemma CompletedRemember(completed: seq<Step>, emitted: seq<Rollout>, step: Step, r: Script, dim: nat)
    requires HistoryRemembers(completed, emitted, r, dim) && FedAt(r, |completed|, step.choice, dim)
    ensures HistoryRemembers(completed + [step], emitted, r, dim)
  {
  }

  /** Between two choices: what is left of the fragment still carries its snapshot, and a new one has none yet. */
  ghost predicate Between(s: Sim, r: Script, dim: nat)
  {
    && s.running && s.buffer.pending.None? && |s.buffer.steps| <= |s.completed|
    && if s.buffer.steps == [] then s.buffer.initial.None?
       else SnapshotAt(r, |s.completed| - |s.buffer.steps|, s.buffer.initial, dim)
  }

  lemma CompleteKeepsSnapshot(cfg: Config, s: Sim, r: Script, reward: real, terminal: bool)
    requires Lstm(cfg) && s.running && ChoiceRemembers(s, r, |s.completed|, cfg.lstmDim)
    ensures var s' := Complete(cfg, s, reward, terminal);
      Between(s', r, cfg.lstmDim) && |s'.completed| == |s.completed| + 1 && s'.ctx == s.ctx
  {
  }

  lemma CompleteRemembers(cfg: Config, s: Sim, r: Script, reward: real, terminal: bool)
    requires Lstm(cfg) && ConservationOk(s) && s.running && Remembers(s, r, cfg.lstmDim)
    ensures var s' := Complete(cfg, s, reward, terminal); HistoryRemembers(s'.completed, s'.emitted, r, cfg.lstmDim)
  {
    var step := Step(s.buffer.pending.value, reward, terminal);
    var steps := s.buffer.steps + [step];
    CompletedRemember(s.completed, s.emitted, step, r, cfg.lstmDim);
    if |steps| >= cfg.unroll || terminal {
      EmitRemembers(s.completed + [step], s.emitted, Rollout(s.id, s.rolloutSeq, terminal, steps, s.buffer.initial), r, cfg.lstmDim);
    }
  }

  lemma GoesOn(cfg: Config, s: Sim, r: Script, n: nat, state: int, e: Evaluation)
    requires Lstm(cfg) && Between(s, r, cfg.lstmDim) && HistoryRemembers(s.completed, s.emitted, r, cfg.lstmDim)
    requires n == |s.completed| <= |r.ticks| && ChoiceAt(r, n) == Some(Choice(state, e, None))
    requires Holds(s.ctx, Before(r, n), cfg.lstmDim) && Matching(e, cfg.lstmDim)
    ensures Remembers(Act(cfg, s, state, e), r, cfg.lstmDim)
  {
    ActRemembers(cfg, s, Before(r, n), state, e);
  }

  lemma StartsOver(cfg: Config, s: Sim, r: Script, n: nat, resets: seq<ResetOutcome>, version: nat)
    requires Lstm(cfg) && s.running && s.buffer == EmptyBuffer && s.ctx == ResetContext(version)
    requires HistoryRemembers(s.completed, s.emitted, r, cfg.lstmDim) && MatchingResets(resets, cfg.lstmDim)
    requires n == |s.completed| <= |r.ticks| && ChoiceAt(r, n) == Ready(resets, version)
    ensures Remembers(Reseed(cfg, s, resets), r, cfg.lstmDim)
  {
    ReseedRemembers(cfg, s, resets, version);
  }

  /** The step is completed, and what the policy returned for it is what the next choice starts from. */
  ghost predicate Completed(s: Sim, r: Script, n: nat, dim: nat)
  {
    && n == |s.completed| && 0 < n <= |r.ticks| && Between(s, r, dim) && HistoryRemembers(s.completed, s.emitted, r, dim)
    && ChoiceAt(r, n - 1).Some? && Holds(s.ctx, After(Before(r, n - 1), ChoiceAt(r, n - 1).value.eval), dim)
  }

  lemma CompletedRemembers(cfg: Config, s: Sim, r: Script, reward: real, terminal: bool)
    requires Lstm(cfg) && ConservationOk(s) && s.running && Remembers(s, r, cfg.lstmDim) && |s.completed| < |r.ticks|
    ensures Completed(Complete(cfg, s, reward, terminal), r, |s.completed| + 1, cfg.lstmDim)
  {
    CompleteRemembers(cfg, s, r, reward, terminal);
    CompleteKeepsSnapshot(cfg, s, r, reward, terminal);
  }

  /** What an iteration does once its step is completed. */
  ghost predicate GoesOnTo(cfg: Config, s: Sim, t: Tick, s': Sim)
    requires t.Stepped?
  {
    s' == if t.terminal
          then Reseed(cfg, s.(next := None, buffer := EmptyBuffer, ctx := ResetContext(t.version)), t.resets)
          else Act(cfg, s, t.state, t.eval)
  }

  lemma NextRemembers(cfg: Config, s: Sim, s': Sim, r: Script, n: nat)
    requires Lstm(cfg) && Completed(s, r, n, cfg.lstmDim) && r.ticks[n - 1].Stepped? && MatchingTick(r.ticks[n - 1], cfg.lstmDim)
    requires GoesOnTo(cfg, s, r.ticks[n - 1], s')
    ensures Remembers(s', r, cfg.lstmDim)
  {
    var t := r.ticks[n - 1];
    if t.terminal {
      StartsOver(cfg, s.(next := None, buffer := EmptyBuffer, ctx := ResetContext(t.version)), r, n, t.resets, t.version);
    } else {
      GoesOn(cfg, s, r, n, t.state, t.eval);
    }
  }

  lemma IterateGoesOn(cfg: Config, s: Sim, t: Tick)
    requires cfg.neural && AtLoopHead(s) && s.running && t.Stepped?
    ensures GoesOnTo(cfg, Complete(cfg, s, t.reward, t.terminal), t, Iterate(cfg, s, t))
  {
  }

  lemma IterateRemembers(cfg: Config, s: Sim, s': Sim, r: Script, n: nat)
    requires Lstm(cfg) && ConservationOk(s) && s.running && Remembers(s, r, cfg.lstmDim)
    requires n == |s.completed| < |r.ticks| && r.ticks[n].Stepped? && MatchingTick(r.ticks[n], cfg.lstmDim)
    requires GoesOnTo(cfg, Complete(cfg, s, r.ticks[n].reward, r.ticks[n].terminal), r.ticks[n], s')
    ensures Remembers(s', r, cfg.lstmDim)
  {
    var t := r.ticks[n];
    CompletedRemembers(cfg, s, r, t.reward, t.terminal);
    NextRemembers(cfg, Complete(cfg, s, t.reward, t.terminal), s', r, n + 1);
  }

  ghost predicate MatchingScript(r: Script, dim: nat)
  {
    MatchingResets(r.resets, dim) && forall k :: 0 <= k < |r.ticks| ==> MatchingTick(r.ticks[k], dim)
  }

  lemma {:induction false} PrefixesRemember(cfg: Config, id: nat, r: Script, m: nat)
    requires Lstm(cfg) && MatchingScript(r, cfg.lstmDim) && m <= |r.ticks|
    ensures AtLoopHead(Boot(cfg, id, r.version, r.resets))
    ensures Remembers(RunTicks(cfg, Boot(cfg, id, r.version, r.resets), r.ticks[..m]), r, cfg.lstmDim)
  {
    BootIsOk(cfg, id, r.version, r.resets);
    var boot := Boot(cfg, id, r.version, r.resets);
    if m == 0 {
      ReseedRemembers(cfg, NewSim(cfg, id, r.version), r.resets, r.version);
    } else {
      var before := r.ticks[..m - 1];
      assert r.ticks[..m][..m - 1] == before;
      PrefixesRemember(cfg, id, r, m - 1);
      PrefixesFollow(cfg, id, r, m - 1);
      ThreadsCutFragments(cfg, id, r.version, r.resets, before);
      var s := RunTicks(cfg, boot, before);
      if s.running && r.ticks[m - 1].Stepped? {
        IterateGoesOn(cfg, s, r.ticks[m - 1]);
        IterateRemembers(cfg, s, Iterate(cfg, s, r.ticks[m - 1]), r, m - 1);
      }
    }
  }

  /**
   In every run of a matching script, each completed step was fed what the thread remembered, and each fragment
   carries what was remembered before its first step.
   */
  lemma StepsAreFed(cfg: Config, id: nat, r: Script)
    requires Lstm(cfg) && MatchingScript(r, cfg.lstmDim)
    ensures AtLoopHead(Boot(cfg, id, r.version, r.resets))
    ensures Remembers(RunTicks(cfg, Boot(cfg, id, r.version, r.resets), r.ticks), r, cfg.lstmDim)
  {
    PrefixesRemember(cfg, id, r, |r.ticks|);
    assert r.ticks[..|r.ticks|] == r.ticks;
  }

  // ----- what is remembered -----

  predicate Runs(e: Evaluation) { e.model.Some? && e.inference.Ran? }

  /** No episode begins from choice j + 1 to choice k. */
  ghost predicate SameEpisode(r: Script, j: nat, k: nat)
    requires j <= k <= |r.ticks|
  {
    && (forall i :: j <= i <= k ==> ChoiceAt(r, i).Some?)
    && (forall i :: j < i <= k ==> ChoiceAt(r, i).value.start.None?)
  }

  /** Between choices j and k no model ran, and none had a version other than v. */
  ghost predicate Undisturbed(r: Script, j: nat, k: nat, v: nat)
    requires j < k <= |r.ticks| && SameEpisode(r, j, k)
  {
    forall i :: j < i < k ==>
      var e := ChoiceAt(r, i).value.eval; !Runs(e) && (e.model.Some? ==> e.model.value.version == v)
  }

  lemma BeforeNext(r: Script, k: nat)
    requires k < |r.ticks| && SameEpisode(r, k, k + 1)
    ensures Before(r, k + 1) == After(Before(r, k), ChoiceAt(r, k).value.eval)
  {
  }

  /** What the latest run of the model returned is remembered, until a new episode or version. */
  lemma {:induction false} LastOutputIsHeld(r: Script, j: nat, k: nat)
    requires j < k <= |r.ticks| && SameEpisode(r, j, k) && Runs(ChoiceAt(r, j).value.eval)
    requires Undisturbed(r, j, k, ChoiceAt(r, j).value.eval.model.value.version)
    ensures var e := ChoiceAt(r, j).value.eval;
      Before(r, k) == Memory(e.model.value.version, Some(Recurrent(e.inference.hidden, e.inference.cell)))
    decreases k
  {
    BeforeNext(r, k - 1);
    if j < k - 1 {
      LastOutputIsHeld(r, j, k - 1);
    }
  }

  /** Nothing is remembered from an episode's start until the model runs. */
  lemma {:induction false} NothingIsHeld(r: Script, j: nat, k: nat)
    requires j <= k <= |r.ticks| && SameEpisode(r, j, k) && ChoiceAt(r, j).value.start.Some?
    requires forall i :: j <= i < k ==> !Runs(ChoiceAt(r, i).value.eval)
    ensures Before(r, k).last == None
    decreases k
  {
    if j < k {
      BeforeNext(r, k - 1);
      NothingIsHeld(r, j, k - 1);
    }
  }

  /** The version is that of the latest model, or that of the episode's start while no model was there. */
  lemma {:induction false} VersionIsLatest(r: Script, j: nat, k: nat)
    requires j < k <= |r.ticks| && SameEpisode(r, j, k)
    requires forall i :: j < i < k ==> ChoiceAt(r, i).value.eval.model.None?
    ensures var c := ChoiceAt(r, j).value;
      Before(r, k).version == if c.eval.model.Some? then c.eval.model.value.version else Before(r, j).version
    decreases k
  {
    BeforeNext(r, k - 1);
    if j < k - 1 {
      VersionIsLatest(r, j, k - 1);
    }
  }

  /** A model of another version than the one seen last is fed zeros, and what was remembered is lost. */
  lemma NewVersionForgets(r: Script, k: nat, dim: nat)
    requires k < |r.ticks| && SameEpisode(r, k, k + 1)
    requires var e := ChoiceAt(r, k).value.eval; e.model.Some? && e.model.value.version != Before(r, k).version
    ensures var e := ChoiceAt(r, k).value.eval;
      && (Fed(Before(r, k), e, dim).Some? ==> Fed(Before(r, k), e, dim).value == ZeroState(dim))
      && (!Runs(e) ==> Before(r, k + 1) == Memory(e.model.value.version, None))
  {
    BeforeNext(r, k);
  }

  /**
   In every run, a step whose model has the version of the last one that ran is fed exactly what that one returned,
   finite or not, and a fragment that starts with this step carries it.
   */
  lemma LastOutputIsFed(cfg: Config, id: nat, r: Script, j: nat, k: nat)
    requires Lstm(cfg) && MatchingScript(r, cfg.lstmDim)
    requires j < k <= |r.ticks| && SameEpisode(r, j, k) && Runs(ChoiceAt(r, j).value.eval)
    requires Undisturbed(r, j, k, ChoiceAt(r, j).value.eval.model.value.version)
    ensures AtLoopHead(Boot(cfg, id, r.version, r.resets))
    ensures var s := RunTicks(cfg, Boot(cfg, id, r.version, r.resets), r.ticks);
      var e, e' := ChoiceAt(r, j).value.eval, ChoiceAt(r, k).value.eval;
      var output := Recurrent(e.inference.hidden, e.inference.cell);
      && (k < |s.completed| ==>
            (s.completed[k].choice.fed.Some? <==> e'.model.Some? && (e'.inference.Ran? || e'.inference.Crashed?)))
      && (k < |s.completed| && s.completed[k].choice.fed.Some? ==>
            s.completed[k].choice.fed.value
            == if e'.model.value.version == e.model.value.version then output else ZeroState(cfg.lstmDim))
      && forall f :: 0 <= f < |s.emitted| && Offset(s.emitted, f) == k ==> s.emitted[f].initial == Some(output)
  {
    StepsAreFed(cfg, id, r);
    LastOutputIsHeld(r, j, k);
    var s := RunTicks(cfg, Boot(cfg, id, r.version, r.resets), r.ticks);
    assert k < |s.completed| ==> FedAt(r, k, s.completed[k].choice, cfg.lstmDim);
    forall f | 0 <= f < |s.emitted| && Offset(s.emitted, f) == k
      ensures s.emitted[f].initial == Some(Recurrent(ChoiceAt(r, j).value.eval.inference.hidden,
                                                     ChoiceAt(r, j).value.eval.inference.cell))
    {
      assert SnapshotAt(r, Offset(s.emitted, f), s.emitted[f].initial, cfg.lstmDim);
    }
  }

  /** In every run, steps from an episode's start up to the first run of the model are fed zeros, and so are their fragments. */
  lemma FirstIsFedZeros(cfg: Config, id: nat, r: Script, j: nat, k: nat)
    requires Lstm(cfg) && MatchingScript(r, cfg.lstmDim)
    requires j <= k <= |r.ticks| && SameEpisode(r, j, k) && ChoiceAt(r, j).value.start.Some?
    requires forall i :: j <= i < k ==> !Runs(ChoiceAt(r, i).value.eval)
    ensures AtLoopHead(Boot(cfg, id, r.version, r.resets))
    ensures var s := RunTicks(cfg, Boot(cfg, id, r.version, r.resets), r.ticks);
      && (k < |s.completed| && s.completed[k].choice.fed.Some? ==> s.completed[k].choice.fed.value == ZeroState(cfg.lstmDim))
      && forall f :: 0 <= f < |s.emitted| && Offset(s.emitted, f) == k ==> s.emitted[f].initial == Some(ZeroState(cfg.lstmDim))
  {
    StepsAreFed(cfg, id, r);
    NothingIsHeld(r, j, k);
    var s := RunTicks(cfg, Boot(cfg, id, r.version, r.resets), r.ticks);
    assert k < |s.completed| ==> FedAt(r, k, s.completed[k].choice, cfg.lstmDim);
    forall f | 0 <= f < |s.emitted| && Offset(s.emitted, f) == k
      ensures s.emitted[f].initial == Some(ZeroState(cfg.lstmDim))
    {
      assert SnapshotAt(r, Offset(s.emitted, f), s.emitted[f].initial, cfg.lstmDim);
    }
  }

  // ----- other policies -----

  /** A model without a recurrent state, if there is one. */
  ghost predicate Stateless(cfg: Config, e: Evaluation)
  {
    cfg.neural && e.model.Some? ==> !e.model.value.recurrent
  }

  ghost predicate StatelessResets(cfg: Config, resets: seq<ResetOutcome>)
  {
    forall k :: 0 <= k < |resets| && resets[k].ResetTo? ==> Stateless(cfg, resets[k].eval)
  }

  ghost predicate StatelessTick(cfg: Config, t: Tick)
  {
    t.Stepped? ==> Stateless(cfg, t.eval) && StatelessResets(cfg, t.resets)
  }

  ghost predicate CarriesNothing(s: Sim)
  {
    && s.ctx.hidden == [] && s.ctx.cell == [] && s.buffer.initial.None?
    && (s.buffer.pending.Some? ==> s.buffer.pending.value.fed.None?)
    && (forall k :: 0 <= k < |s.completed| ==> s.completed[k].choice.fed.None?)
    && (forall k :: 0 <= k < |s.emitted| ==> s.emitted[k].initial.None?)
  }

  lemma ActCarriesNothing(cfg: Config, s: Sim, state: int, e: Evaluation)
    requires CarriesNothing(s) && Stateless(cfg, e) && (cfg.neural ==> cfg.lstmDim == 0)
    ensures CarriesNothing(Act(cfg, s, state, e))
  {
  }

  lemma {:induction false} ReseedCarriesNothing(cfg: Config, s: Sim, resets: seq<ResetOutcome>)
    requires CarriesNothing(s) && StatelessResets(cfg, resets) && (cfg.neural ==> cfg.lstmDim == 0)
    ensures CarriesNothing(Reseed(cfg, s, resets))
    decreases |resets|
  {
    if resets != [] && resets[0].ResetTo? {
      if resets[0].terminal {
        ReseedCarriesNothing(cfg, s.(next := None), resets[1..]);
      } else {
        ActCarriesNothing(cfg, s, resets[0].state, resets[0].eval);
      }
    }
  }

  lemma CompleteCarriesNothing(cfg: Config, s: Sim, reward: real, terminal: bool)
    requires CarriesNothing(s) && s.buffer.pending.Some?
    ensures CarriesNothing(Complete(cfg, s, reward, terminal))
  {
  }

  /** A thread whose policy has no recurrent state never feeds one and never attaches one to a fragment. */
  lemma {:induction false} StatelessThreadsCarryNothing(
    cfg: Config, id: nat, version: nat, resets: seq<ResetOutcome>, ticks: seq<Tick>)
    requires (cfg.neural ==> cfg.lstmDim == 0) && StatelessResets(cfg, resets)
    requires forall k :: 0 <= k < |ticks| ==> StatelessTick(cfg, ticks[k])
    ensures AtLoopHead(Boot(cfg, id, version, resets))
    ensures CarriesNothing(RunTicks(cfg, Boot(cfg, id, version, resets), ticks))
  {
    BootIsOk(cfg, id, version, resets);
    if ticks == [] {
      ReseedCarriesNothing(cfg, NewSim(cfg, id, version), resets);
    } else {
      var before, t := ticks[..|ticks| - 1], ticks[|ticks| - 1];
      StatelessThreadsCarryNothing(cfg, id, version, resets, before);
      IterateCarriesNothing(cfg, RunTicks(cfg, Boot(cfg, id, version, resets), before), t);
    }
  }

  lemma IterateCarriesNothing(cfg: Config, s: Sim, t: Tick)
    requires CarriesNothing(s) && AtLoopHead(s) && StatelessTick(cfg, t) && (cfg.neural ==> cfg.lstmDim == 0)
    ensures CarriesNothing(Iterate(cfg, s, t))
  {
    if s.running && t.Stepped? {
      CompleteCarriesNothing(cfg, s, t.reward, t.terminal);
      var s1 := Complete(cfg, s, t.reward, t.terminal);
      if t.terminal {
        var ctx := if cfg.neural then ResetContext(t.version) else s1.ctx;
        ReseedCarriesNothing(cfg, s1.(next := None, buffer := EmptyBuffer, ctx := ctx), t.resets);
      } else {
        ActCarriesNothing(cfg, s1, t.state, t.eval);
      }
    }
  }

  /**
   Without any assumption on widths: a recurrent model that runs leaves its output and its version, and is fed what
   the context holds in its width, zeros for a part of another width or after a new version.
   */
  lemma ModelsLeaveTheirOutput(cfg: Config, ctx: Context, e: Evaluation)
    requires cfg.neural && Runs(e) && e.model.value.recurrent
    ensures var p := RunPolicy(cfg, ctx, e); var m := e.model.value;
      && p.ctx == Context(e.inference.hidden, e.inference.cell, m.version)
      && p.fed.Some?
      && p.fed.value.hidden == (if m.version == ctx.version && |ctx.hidden| == m.dim then ctx.hidden else Zeros(m.dim))
      && p.fed.value.cell == (if m.version == ctx.version && |ctx.cell| == m.dim then ctx.cell else Zeros(m.dim))
  {
  }
}
