/**
 Whole runs of the coordinator: every sequence of calls, in any order and with any arguments.
 A run carries history next to the registry state: what each worker was last told, where in the
 directive log it joined, and every session that was handed out.
 */
module RegistryRuns {
  import opened Prelude
  import opened RegistrySpec
  import opened RegistryInvariants

  datatype Event =
    | WorkerJoins(whello: WorkerHello, wtoken: string, at: int)
    | WorkerBeats(wbeat: WorkerBeat, at: int)
    | WorkerLeaves(id: string, at: int)
    | WorkersSwept(timeout: real, at: int)
    | LearnerJoins(lhello: LearnerHello, ltoken: string, at: int)
    | LearnerBeats(payload: Option<LearnerBeat>, at: int)
    | LearnersSwept(timeout: real, at: int)
    | DirectiveTaken(worker: nat)

  // told and born are indexed like state.workers.
  datatype Run = Run(state: State, told: seq<string>, born: seq<nat>, issued: seq<Session>)

  function Next(s: State, e: Event): (s': State)
    ensures e.WorkerJoins? && WorkerMatch(s.workers, e.whello).None? ==> |s'.workers| == |s.workers| + 1
    ensures !(e.WorkerJoins? && WorkerMatch(s.workers, e.whello).None?) ==> |s'.workers| == |s.workers|
    ensures s'.learnerSeq >= s.learnerSeq
  {
    match e
    case WorkerJoins(hello, token, at) => RegisterWorker(s, hello, token, at).0
    case WorkerBeats(beat, at) => BeatWorker(s, beat, at).0
    case WorkerLeaves(id, at) => DisconnectWorker(s, id, at)
    case WorkersSwept(timeout, at) => SweepWorkers(s, timeout, at)
    case LearnerJoins(hello, token, at) => RegisterLearner(s, hello, token, at)
    case LearnerBeats(payload, at) => BeatLearner(s, payload, at).0
    case LearnersSwept(timeout, at) => SweepLearners(s, timeout, at)
    case DirectiveTaken(i) => if i < |s.workers| && s.workers[i].queue != [] then TakeDirective(s, i) else s
  }

  function Advance(r: Run, e: Event): (r': Run)
    requires |r.told| == |r.born| == |r.state.workers|
    ensures |r'.told| == |r'.born| == |r'.state.workers|
    ensures r'.state == Next(r.state, e)
  {
    var s' := Next(r.state, e);
    match e
    case WorkerJoins(hello, token, at) =>
      var session := RegisterWorker(r.state, hello, token, at).1;
      var i := WorkerMatch(r.state.workers, hello);
      Run(s',
          if i.Some? then r.told[i.value := session.target] else r.told + [session.target],
          if i.Some? then r.born else r.born + [|r.state.log|],
          r.issued + [session])
    case DirectiveTaken(i) =>
      if i < |r.state.workers| && r.state.workers[i].queue != []
      then r.(state := s', told := r.told[i := r.state.workers[i].queue[0].target])
      else r
    case _ => r.(state := s')
  }

  const Start := Run(Initial, [], [], [])

  function Execute(events: seq<Event>): (r: Run)
    ensures |r.told| == |r.born| == |r.state.workers|
  {
    if events == [] then Start else Advance(Execute(events[..|events| - 1]), events[|events| - 1])
  }

  // ----- single calls -----

  predicate IsLearnerEvent(e: Event)
  {
    e.LearnerJoins? || e.LearnerBeats? || e.LearnersSwept?
  }

  /** Worker calls touch no learner and push nothing. */
  lemma WorkerCallsAreLocal(s: State, e: Event)
    requires !IsLearnerEvent(e) && Settled(s)
    ensures WorkersOnly(s, Next(s, e))
  {
    match e
    case WorkerJoins(hello, token, at) =>
      JoinIsLocal(s, hello, token, at);
    case WorkerBeats(beat, at) =>
      var v := ValidateWorker(s, beat.id, beat.token);
      if v.Ok? { RewriteIsWorkersOnly(s, v.value, Next(s, e).workers[v.value]); }
    case WorkerLeaves(id, at) =>
      var i := WorkerIndex(s.workers, id);
      if i.Some? { RewriteIsWorkersOnly(s, i.value, Next(s, e).workers[i.value]); }
    case WorkersSwept(timeout, at) => SweepIsWorkersOnly(s, timeout, at);
    case DirectiveTaken(i) =>
      if i < |s.workers| && s.workers[i].queue != [] { RewriteIsWorkersOnly(s, i, Next(s, e).workers[i]); }
  }

  lemma WorkerCallsKeep(s: State, e: Event)
    requires WellFormed(s) && !IsLearnerEvent(e)
    ensures WellFormed(Next(s, e))
  {
    WorkerCallsAreLocal(s, e);
    WorkersOnlyKeeps(s, Next(s, e));
  }

  /** Every call, with any arguments, keeps the invariant. */
  lemma NextKeepsWellFormed(s: State, e: Event)
    requires WellFormed(s)
    ensures WellFormed(Next(s, e))
  {
    match e
    case LearnerJoins(hello, token, at) => RegisterLearnerKeeps(s, hello, token, at);
    case LearnerBeats(payload, at) => BeatLearnerKeeps(s, payload, at);
    case LearnersSwept(timeout, at) => SweepKeeps(s, timeout, at);
    case _ => WorkerCallsKeep(s, e);
  }

  lemma SwitchIffEndpointChanges(s: State, e: Event)
    requires WellFormed(s)
    ensures Quiet(s, Next(s, e)) || (IsLearnerEvent(e) && Switched(s, Next(s, e)))
    ensures IsLearnerEvent(e) && Quiet(s, Next(s, e)) ==> Next(s, e).workers == s.workers
  {
    UpdateActiveIsIdle(s);
    match e
    case LearnerJoins(hello, token, at) => AnnounceSwitches(s, UpdateActive(EnrolLearner(s, hello, token, at).0, Some(EnrolLearner(s, hello, token, at).1)));
    case LearnerBeats(payload, at) => BeatSwitches(s, payload, at);
    case LearnersSwept(timeout, at) =>
      AnnounceSwitches(s, UpdateActive(s.(learners := Survivors(s.learners, Threshold(timeout, at))), None));
    case _ => WorkerCallsAreLocal(s, e);
  }

  // ----- convergence -----

  ghost predicate RunOk(r: Run)
  {
    WellFormed(r.state) && AllServed(r)
  }

  ghost predicate AllServed(r: Run)
  {
    && |r.told| == |r.born| == |r.state.workers|
    && forall i :: 0 <= i < |r.told| ==>
         Served(r.told[i], r.born[i], r.state.workers[i].queue, Endpoint(r.state), r.state.log)
  }

  lemma TakeIsLocal(s: State, i: nat)
    requires i < |s.workers| && s.workers[i].queue != []
    ensures var s' := Next(s, DirectiveTaken(i));
      && s'.log == s.log && Endpoint(s') == Endpoint(s) && |s'.workers| == |s.workers|
      && s'.workers[i].queue == s.workers[i].queue[1..]
      && forall j :: 0 <= j < |s.workers| && j != i ==> s'.workers[j] == s.workers[j]
  {
  }

  lemma TakeKeepsRunOk(r: Run, i: nat)
    requires RunOk(r) && i < |r.told| && r.state.workers[i].queue != []
    ensures RunOk(Advance(r, DirectiveTaken(i)))
  {
    NextKeepsWellFormed(r.state, DirectiveTaken(i));
    TakeKeepsServed(r, i);
  }

  lemma TakeKeepsServed(r: Run, i: nat)
    requires AllServed(r) && i < |r.told| && r.state.workers[i].queue != []
    ensures AllServed(Advance(r, DirectiveTaken(i)))
  {
    var r' := Advance(r, DirectiveTaken(i));
    TakeIsLocal(r.state, i);
    forall j | 0 <= j < |r'.told|
      ensures Served(r'.told[j], r'.born[j], r'.state.workers[j].queue, Endpoint(r'.state), r'.state.log)
    {
      assert Served(r.told[j], r.born[j], r.state.workers[j].queue, Endpoint(r.state), r.state.log);
      if j == i {
        TakeServes(r.told[i], r.born[i], r.state.workers[i].queue, Endpoint(r.state), r.state.log);
      }
    }
  }

  lemma JoinKeepsRunOk(r: Run, e: Event)
    requires RunOk(r) && e.WorkerJoins?
    ensures RunOk(Advance(r, e))
  {
    NextKeepsWellFormed(r.state, e);
    JoinServesAll(r, e);
  }

  lemma JoinServesAll(r: Run, e: Event)
    requires AllServed(r) && Settled(r.state) && e.WorkerJoins?
    ensures AllServed(Advance(r, e))
  {
    JoinServes(r.state, e);
    JoinTells(r, e);
    var m := WorkerMatch(r.state.workers, e.whello);
    JoinKeepsServed(r, Advance(r, e), if m.Some? then m.value else |r.told|);
  }

  lemma JoinTells(r: Run, e: Event)
    requires |r.told| == |r.born| == |r.state.workers| && e.WorkerJoins? && Settled(r.state)
    ensures var r' := Advance(r, e); var m := WorkerMatch(r.state.workers, e.whello);
      && r'.told == (if m.Some? then r.told[m.value := Endpoint(r.state)] else r.told + [Endpoint(r.state)])
      && r'.born == (if m.Some? then r.born else r.born + [|r.state.log|])
  {
    JoinServes(r.state, e);
  }

  /** A registration at slot `at`, old or new: the worker is told the endpoint, and no old queue changes. */
  lemma JoinKeepsServed(r: Run, r': Run, at: nat)
    requires AllServed(r) && r'.state.log == r.state.log && Endpoint(r'.state) == Endpoint(r.state)
    requires at <= |r.told| <= |r'.told| && |r'.told| == |r'.born| == |r'.state.workers|
    requires |r'.told| == if at < |r.told| then |r.told| else |r.told| + 1
    requires forall j :: 0 <= j < |r'.told| ==> r'.told[j] == if j == at then Endpoint(r.state) else r.told[j]
    requires forall j :: 0 <= j < |r'.born| ==> r'.born[j] == if j < |r.born| then r.born[j] else |r.state.log|
    requires forall j :: 0 <= j < |r.told| ==> r'.state.workers[j].queue == r.state.workers[j].queue
    requires at == |r.told| ==> r'.state.workers[at].queue == []
    ensures AllServed(r')
  {
    forall j | 0 <= j < |r'.told|
      ensures Served(r'.told[j], r'.born[j], r'.state.workers[j].queue, Endpoint(r'.state), r'.state.log)
    {
      if j < |r.told| {
        assert Served(r.told[j], r.born[j], r.state.workers[j].queue, Endpoint(r.state), r.state.log);
      }
    }
  }

  /** A registration is answered with the current endpoint; a surviving queue is left alone and a new one is empty. */
  lemma JoinServes(s: State, e: Event)
    requires e.WorkerJoins? && Settled(s)
    ensures var s' := Next(s, e); var i := WorkerMatch(s.workers, e.whello);
      && s'.log == s.log && Endpoint(s') == Endpoint(s)
      && RegisterWorker(s, e.whello, e.wtoken, e.at).1.target == Endpoint(s)
      && |s'.workers| == (if i.Some? then |s.workers| else |s.workers| + 1)
      && (forall j :: 0 <= j < |s.workers| ==> s'.workers[j].queue == s.workers[j].queue)
      && (i.None? ==> s'.workers[|s.workers|].queue == [])
  {
    RegisteredSettled(s, e.whello, e.wtoken, e.at);
  }

  /** A call that switches serves every worker anew; any other leaves what served it. */
  lemma CallKeepsServed(r: Run, s': State)
    requires AllServed(r) && (Switched(r.state, s') || (Quiet(r.state, s') && SameQueues(r.state, s')))
    ensures AllServed(r.(state := s'))
  {
    var s := r.state;
    forall i | 0 <= i < |r.told|
      ensures Served(r.told[i], r.born[i], s'.workers[i].queue, Endpoint(s'), s'.log)
    {
      assert Served(r.told[i], r.born[i], s.workers[i].queue, Endpoint(s), s.log);
      if Switched(s, s') {
        PushServes(r.told[i], r.born[i], s.workers[i].queue, Endpoint(s), s.log, Directive(SwitchLearner, Endpoint(s')));
      }
    }
  }

  lemma CallKeepsWellServed(r: Run, e: Event, s': State)
    requires RunOk(r) && !e.WorkerJoins? && !e.DirectiveTaken? && s' == Next(r.state, e)
    ensures RunOk(r.(state := s'))
  {
    NextKeepsWellFormed(r.state, e);
    SwitchIffEndpointChanges(r.state, e);
    if !IsLearnerEvent(e) { KeepsQueues(r.state, e); }
    CallKeepsServed(r, s');
  }

  lemma KeepsQueues(s: State, e: Event)
    requires !IsLearnerEvent(e) && !e.WorkerJoins? && !e.DirectiveTaken?
    ensures SameQueues(s, Next(s, e))
  {
  }

  lemma AdvanceKeepsRunOk(r: Run, e: Event)
    requires RunOk(r)
    ensures RunOk(Advance(r, e))
  {
    if e.WorkerJoins? {
      JoinKeepsRunOk(r, e);
    } else if e.DirectiveTaken? {
      if e.worker < |r.told| && r.state.workers[e.worker].queue != [] {
        TakeKeepsRunOk(r, e.worker);
      }
    } else {
      CallKeepsWellServed(r, e, Next(r.state, e));
    }
  }

  /** In every run, all reachable states are well-formed and every worker is served. */
  lemma {:induction false} ReachableRunsAreOk(events: seq<Event>)
    ensures RunOk(Execute(events))
  {
    if events != [] {
      var r, e := Execute(events[..|events| - 1]), events[|events| - 1];
      ReachableRunsAreOk(events[..|events| - 1]);
      AdvanceKeepsRunOk(r, e);
    }
  }

  /** In every run, consuming what is queued takes each worker from its last target to the current endpoint. */
  lemma EveryWorkerConverges(events: seq<Event>, i: nat)
    requires i < |Execute(events).state.workers|
    ensures var r := Execute(events); Settle(r.told[i], r.state.workers[i].queue) == Endpoint(r.state)
  {
    ReachableRunsAreOk(events);
  }

  /** A queue is the newest part, at most eight entries, of what was pushed since its worker was created. */
  lemma QueueIsRecentSwitches(events: seq<Event>, i: nat)
    requires i < |Execute(events).state.workers|
    ensures var r := Execute(events); var q := r.state.workers[i].queue;
      && |q| <= QUEUE_CAPACITY && r.born[i] <= |r.state.log| && IsSuffix(q, r.state.log[r.born[i]..])
      && forall k :: 0 < k < |q| ==> q[k - 1].target != q[k].target
  {
    ReachableRunsAreOk(events);
    var s := Execute(events).state;
    SuffixAlternates(s.workers[i].queue, s.log);
  }

  /** The reachable-state facts about the active learner. */
  lemma ReachableStatesAreSettled(events: seq<Event>)
    ensures var s := Execute(events).state;
      && (s.active.None? <==> s.learners == [])
      && (forall l :: l in s.learners && l.endpoint != "" ==> Endpoint(s) != "")
      && UpdateActive(s, None) == s
      && LastTarget(s.log) == Endpoint(s)
  {
    ReachableRunsAreOk(events);
    UpdateActiveIsIdle(Execute(events).state);
  }

  // ----- worker sessions -----

  lemma JoinTracksToken(s: State, issued: seq<Session>, e: Event, id: string)
    requires WorkersOk(s) && e.WorkerJoins? && CurrentToken(s, id) == LastIssued(issued, id)
    ensures CurrentToken(Next(s, e), id) == LastIssued(issued + [RegisterWorker(s, e.whello, e.wtoken, e.at).1], id)
  {
    var session := RegisterWorker(s, e.whello, e.wtoken, e.at).1;
    assert (issued + [session])[..|issued|] == issued;
    JoinIssuesToken(s, e, id);
  }

  /** A registration sets the token of the worker id it returns, and of no other. */
  lemma JoinIssuesToken(s: State, e: Event, id: string)
    requires WorkersOk(s) && e.WorkerJoins?
    ensures var session := RegisterWorker(s, e.whello, e.wtoken, e.at).1;
      CurrentToken(Next(s, e), id) == if session.id == id then Some(session.token) else CurrentToken(s, id)
  {
    var ws := s.workers;
    WorkerIdsAreDistinct(s);
    match WorkerMatch(ws, e.whello)
    case None =>
      forall j | 0 <= j < |ws| ensures ws[j].id != WorkerId(s.workerSeq + 1) {
        PaddedIdsAreInjective(j + 1, s.workerSeq + 1);
      }
      TokenOfAppended(ws, Next(s, e).workers[|ws|], id);
    case Some(i) =>
      TokenOfRewritten(ws, i, Next(s, e).workers[i], id);
  }

  lemma TokensChangeOnlyOnJoin(s: State, e: Event)
    requires !e.WorkerJoins?
    ensures var s' := Next(s, e);
      && |s'.workers| == |s.workers|
      && forall j :: 0 <= j < |s.workers| ==> s'.workers[j].id == s.workers[j].id && s'.workers[j].token == s.workers[j].token
  {
  }

  lemma OtherCallsKeepToken(s: State, e: Event, id: string)
    requires !e.WorkerJoins?
    ensures CurrentToken(Next(s, e), id) == CurrentToken(s, id)
  {
    TokensChangeOnlyOnJoin(s, e);
    SameTokens(s, Next(s, e), id);
  }

  lemma AdvanceIssues(r: Run, e: Event)
    requires |r.told| == |r.born| == |r.state.workers|
    ensures Advance(r, e).issued
            == r.issued + if e.WorkerJoins? then [RegisterWorker(r.state, e.whello, e.wtoken, e.at).1] else []
  {
  }

  lemma {:induction false} TokensAreTracked(events: seq<Event>, id: string)
    ensures var r := Execute(events); CurrentToken(r.state, id) == LastIssued(r.issued, id)
  {
    if events != [] {
      var before := events[..|events| - 1];
      TokensAreTracked(before, id);
      ReachableRunsAreOk(before);
      var r, e := Execute(before), events[|events| - 1];
      if e.WorkerJoins? {
        JoinTracksToken(r.state, r.issued, e, id);
      } else {
        OtherCallsKeepToken(r.state, e, id);
      }
      AdvanceIssues(r, e);
    }
  }

  /** A heartbeat is accepted iff its token came from the latest registration that returned its worker id. */
  lemma SessionSafety(events: seq<Event>, beat: WorkerBeat, now: int)
    ensures var r := Execute(events); var (s', v) := BeatWorker(r.state, beat, now);
      && (v.Ok? <==> LastIssued(r.issued, beat.id) == Some(beat.token))
      && (v.Err? ==> s' == r.state)
      && (v == Err(NotRegistered) <==> LastIssued(r.issued, beat.id) == None)
  {
    TokensAreTracked(events, beat.id);
  }

  // ----- learner sessions -----

  /** A sweep in state s that finds the learner stale. */
  ghost predicate Evicts(s: State, e: Event, id: string)
  {
    && e.LearnersSwept? && e.timeout > 0.0
    && exists l :: l in s.learners && l.id == id && l.lastHeartbeat < Threshold(e.timeout, e.at)
  }

  /** The token of the latest registration that returned this learner id, unless a later sweep evicted it. */
  ghost function LastEnrolled(events: seq<Event>, id: string): Option<string>
  {
    if events == [] then None
    else
      var before := events[..|events| - 1];
      TokenAfter(Execute(before).state, events[|events| - 1], id, LastEnrolled(before, id))
  }

  /** What one call does to a learner's session. */
  ghost function TokenAfter(s: State, e: Event, id: string, token: Option<string>): Option<string>
  {
    if e.LearnerJoins? && EnrolLearner(s, e.lhello, e.ltoken, e.at).1 == id then Some(e.ltoken)
    else if Evicts(s, e, id) then None
    else token
  }

  lemma SweepTracksTokens(s: State, timeout: real, now: int, id: string)
    requires WellFormed(s)
    ensures LearnerToken(SweepLearners(s, timeout, now).learners, id)
            == if Evicts(s, LearnersSwept(timeout, now), id) then None else LearnerToken(s.learners, id)
  {
    if timeout > 0.0 {
      var threshold := Threshold(timeout, now);
      SurvivorToken(s.learners, threshold, id);
      if |Survivors(s.learners, threshold)| == |s.learners| {
        assert Survivors(s.learners, threshold) == s.learners;
      }
    }
  }

  lemma NextTracksTokens(s: State, e: Event, id: string)
    requires WellFormed(s)
    ensures LearnerToken(Next(s, e).learners, id) == TokenAfter(s, e, id, LearnerToken(s.learners, id))
  {
    UpdateActiveIsIdle(s);
    match e
    case LearnerJoins(hello, token, at) => EnrolIssuesToken(s, hello, token, at, id);
    case LearnerBeats(payload, at) => BeatKeepsTokens(s, payload, at, id);
    case LearnersSwept(timeout, at) => SweepTracksTokens(s, timeout, at, id);
    case _ => WorkerCallsAreLocal(s, e);
  }

  /** In every run the learners' sessions are those of the latest registrations that no sweep has ended. */
  lemma {:induction false} LearnerTokensAreTracked(events: seq<Event>, id: string)
    ensures LearnerToken(Execute(events).state.learners, id) == LastEnrolled(events, id)
  {
    if events != [] {
      var before := events[..|events| - 1];
      LearnerTokensAreTracked(before, id);
      ReachableRunsAreOk(before);
      NextTracksTokens(Execute(before).state, events[|events| - 1], id);
    }
  }

  /**
   A learner heartbeat is accepted iff its token came from the latest registration that returned its id and no
   sweep has evicted the learner since. Although the call re-evaluates the active learner before it checks the
   session, a refused heartbeat leaves every reachable registry as it was.
   */
  lemma LearnerSessionSafety(events: seq<Event>, payload: Option<LearnerBeat>, now: int)
    ensures var s := Execute(events).state; var (s', v) := BeatLearner(s, payload, now);
      && (v.Ok? <==> payload.Some? && LastEnrolled(events, payload.value.id) == Some(payload.value.token))
      && (v.Err? ==> s' == s)
  {
    ReachableRunsAreOk(events);
    UpdateActiveIsIdle(Execute(events).state);
    if payload.Some? {
      LearnerTokensAreTracked(events, payload.value.id);
    }
  }

  // ----- identifiers -----

  /** Ids count registrations: workers are never forgotten and a new learner id was never used before. */
  lemma IdsAreNeverReused(events: seq<Event>, hello: LearnerHello, token: string, now: int)
    ensures var s := Execute(events).state;
      && |s.workers| == s.workerSeq
      && (LearnerMatch(s.learners, hello).None? ==>
            forall k :: 0 <= k <= |events| ==>
              LearnerIndex(Execute(events[..k]).state.learners, EnrolLearner(s, hello, token, now).1).None?)
  {
    ReachableRunsAreOk(events);
    var s := Execute(events).state;
    if LearnerMatch(s.learners, hello).None? {
      forall k | 0 <= k <= |events|
        ensures LearnerIndex(Execute(events[..k]).state.learners, EnrolLearner(s, hello, token, now).1).None?
      {
        var past := Execute(events[..k]).state;
        ReachableRunsAreOk(events[..k]);
        LearnerSeqGrows(events, k);
        forall i | 0 <= i < |past.learners| ensures past.learners[i].id != LearnerId(s.learnerSeq + 1) {
          var n :| 1 <= n <= past.learnerSeq && past.learners[i].id == LearnerId(n);
          PaddedIdsAreInjective(n, s.learnerSeq + 1);
        }
      }
    }
  }

  lemma {:induction false} LearnerSeqGrows(events: seq<Event>, k: nat)
    requires k <= |events|
    ensures Execute(events[..k]).state.learnerSeq <= Execute(events).state.learnerSeq
    decreases |events|
  {
    if k == |events| {
      assert events[..k] == events;
    } else {
      var before := events[..|events| - 1];
      assert before[..k] == events[..k];
      LearnerSeqGrows(before, k);
    }
  }
}
