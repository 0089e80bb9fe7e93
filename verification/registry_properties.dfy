/** Learner failover and worker identity, over single calls and over whole runs. */
module RegistryProperties {
  import opened Prelude
  import opened RegistrySpec
  import opened RegistryInvariants
  import opened RegistryRuns

  // ----- failover -----

  ghost predicate IsStale(s: State, id: string, threshold: int)
  {
    LearnerIndex(s.learners, id).Some? && s.learners[LearnerIndex(s.learners, id).value].lastHeartbeat < threshold
  }

  lemma {:induction false} SurvivorsKeepAll(ls: seq<LearnerRecord>, threshold: int)
    requires |Survivors(ls, threshold)| == |ls|
    ensures Survivors(ls, threshold) == ls
  {
  }

  /**
   A sweep removes exactly the stale learners. The active learner changes only if it was stale itself,
   and then the newest survivor that has an endpoint takes over.
   */
  lemma SweepFailsOver(s: State, timeout: real, now: int)
    requires WellFormed(s) && timeout > 0.0
    ensures var threshold := Threshold(timeout, now); var s' := SweepLearners(s, timeout, now);
      && s'.learners == Survivors(s.learners, threshold)
      && (s.active.Some? && !IsStale(s, s.active.value, threshold) ==> s'.active == s.active)
      && (s.active.Some? && IsStale(s, s.active.value, threshold) ==>
            var candidates := Candidates(s'.learners);
            s'.active == if candidates != [] then Some(candidates[Newest(candidates)].id)
                         else if s'.learners != [] then Some(s'.learners[Newest(s'.learners)].id)
                         else None)
  {
    UpdateActiveIsIdle(s);
    var threshold := Threshold(timeout, now);
    var survivors := Survivors(s.learners, threshold);
    SurvivorsDistinct(s.learners, threshold);
    if |survivors| == |s.learners| {
      SurvivorsKeepAll(s.learners, threshold);
      StaleIsGone(s, threshold);
    } else if s.active.Some? {
      StaleIsGone(s, threshold);
      NoCandidates(survivors);
    }
  }

  /** The active learner is among the survivors, with the same endpoint, iff it was not stale. */
  lemma StaleIsGone(s: State, threshold: int)
    requires WellFormed(s)
    ensures var survivors := Survivors(s.learners, threshold);
      s.active.Some? ==>
        if IsStale(s, s.active.value, threshold) then LearnerIndex(survivors, s.active.value).None?
        else LearnerIndex(survivors, s.active.value).Some?
             && survivors[LearnerIndex(survivors, s.active.value).value].endpoint == Endpoint(s)
  {
    if s.active.Some? {
      var survivors := Survivors(s.learners, threshold);
      var l := s.learners[LearnerIndex(s.learners, s.active.value).value];
      forall l' | l' in s.learners && l'.id == l.id ensures l' == l {
        var j :| 0 <= j < |s.learners| && s.learners[j] == l';
        LearnerIndexIsUnique(s.learners, j);
      }
      if IsStale(s, s.active.value, threshold) {
        assert forall j :: 0 <= j < |survivors| ==> survivors[j] in survivors;
      } else {
        assert l in survivors;
        var j :| 0 <= j < |survivors| && survivors[j] == l;
        var k := LearnerIndex(survivors, s.active.value);
        assert survivors[k.value] in survivors;
      }
    }
  }

  // ----- a punctual learner is never evicted -----

  function LearnerTimeout(interval: real, workerTimeout: real): (r: real)
    ensures r >= interval * 2.0 && r >= workerTimeout && r in {interval * 2.0, workerTimeout}
  {
    if interval * 2.0 > workerTimeout then interval * 2.0 else workerTimeout
  }

  function RunFrom(s: State, events: seq<Event>): State
    decreases |events|
  {
    if events == [] then s else RunFrom(Next(s, events[0]), events[1..])
  }

  /** At every sweep the learner's stamp is at most two heartbeat intervals old. */
  ghost predicate Punctual(s: State, events: seq<Event>, id: string, interval: real, workerTimeout: real)
    decreases |events|
  {
    events != [] ==>
      && PunctualAt(s, events[0], id, interval, workerTimeout)
      && Punctual(Next(s, events[0]), events[1..], id, interval, workerTimeout)
  }

  ghost predicate PunctualAt(s: State, e: Event, id: string, interval: real, workerTimeout: real)
  {
    e.LearnersSwept? ==>
      && e.timeout == LearnerTimeout(interval, workerTimeout)
      && forall l :: l in s.learners && l.id == id ==> e.at - l.lastHeartbeat <= (interval * 2.0 * 1000.0).Floor
  }

  lemma CallsKeepLearner(s: State, e: Event, id: string)
    requires WellFormed(s) && LearnerIndex(s.learners, id).Some? && !e.LearnersSwept?
    ensures LearnerIndex(Next(s, e).learners, id).Some?
  {
    var i := LearnerIndex(s.learners, id).value;
    if IsLearnerEvent(e) {
      LearnerCallsKeepIds(s, e);
      assert Next(s, e).learners[i].id == id;
    } else {
      WorkerCallsAreLocal(s, e);
    }
  }

  lemma LearnerCallsKeepIds(s: State, e: Event)
    requires e.LearnerJoins? || e.LearnerBeats?
    ensures var ls' := Next(s, e).learners;
      && |s.learners| <= |ls'|
      && forall i :: 0 <= i < |s.learners| ==> ls'[i].id == s.learners[i].id
  {
  }

  lemma SweepLeavesSurvivors(s: State, timeout: real, now: int)
    requires WellFormed(s) && timeout > 0.0
    ensures SweepLearners(s, timeout, now).learners == Survivors(s.learners, Threshold(timeout, now))
  {
    SweepFailsOver(s, timeout, now);
  }

  lemma SurvivorIsFound(ls: seq<LearnerRecord>, i: nat, threshold: int)
    requires i < |ls| && ls[i].lastHeartbeat >= threshold
    ensures LearnerIndex(Survivors(ls, threshold), ls[i].id).Some?
  {
    assert ls[i] in Survivors(ls, threshold);
  }

  /** A sweep leaves a learner whose stamp is at most two intervals old. */
  lemma SweepKeepsPunctual(s: State, e: Event, id: string, interval: real, workerTimeout: real)
    requires WellFormed(s) && LearnerIndex(s.learners, id).Some? && e.LearnersSwept?
    requires PunctualAt(s, e, id, interval, workerTimeout)
    ensures LearnerIndex(SweepLearners(s, e.timeout, e.at).learners, id).Some?
  {
    assert s.learners[LearnerIndex(s.learners, id).value] in s.learners;
    if e.timeout > 0.0 {
      SweepLeavesSurvivors(s, e.timeout, e.at);
      FloorIsMonotone(interval * 2.0 * 1000.0, e.timeout * 1000.0);
      SurvivorIsFound(s.learners, LearnerIndex(s.learners, id).value, Threshold(e.timeout, e.at));
    }
  }

  lemma FloorIsMonotone(a: real, b: real)
    requires a <= b
    ensures a.Floor <= b.Floor
  {
  }

  lemma NextKeepsPunctual(s: State, e: Event, id: string, interval: real, workerTimeout: real)
    requires WellFormed(s) && LearnerIndex(s.learners, id).Some? && PunctualAt(s, e, id, interval, workerTimeout)
    ensures LearnerIndex(Next(s, e).learners, id).Some?
  {
    if e.LearnersSwept? {
      SweepKeepsPunctual(s, e, id, interval, workerTimeout);
    } else {
      CallsKeepLearner(s, e, id);
    }
  }

  /** Whatever else happens, a learner that is punctual at every sweep is still registered at the end. */
  lemma {:induction false} PunctualLearnerSurvives(
    s: State, events: seq<Event>, id: string, interval: real, workerTimeout: real)
    requires WellFormed(s) && LearnerIndex(s.learners, id).Some?
    requires Punctual(s, events, id, interval, workerTimeout)
    ensures LearnerIndex(RunFrom(s, events).learners, id).Some?
    decreases |events|
  {
    if events != [] {
      NextKeepsPunctual(s, events[0], id, interval, workerTimeout);
      NextKeepsWellFormed(s, events[0]);
      PunctualLearnerSurvives(Next(s, events[0]), events[1..], id, interval, workerTimeout);
    }
  }

  // ----- worker identity -----

  ghost predicate Labelled(labels: map<string, string>)
  {
    Label(labels, "identity") == Label(labels, "worker_identity") != ""
  }

  function IdentityOf(w: WorkerRecord): string { Label(w.labels, "identity") }

  ghost predicate HellosLabelled(events: seq<Event>)
  {
    forall k :: 0 <= k < |events| && events[k].WorkerJoins? ==> Labelled(events[k].whello.labels)
  }

  /** Hellos of clients whose hostname is their identity as well. */
  ghost predicate HellosNamed(events: seq<Event>)
  {
    forall k :: 0 <= k < |events| && events[k].WorkerJoins? ==>
      Labelled(events[k].whello.labels) && events[k].whello.hostname == Label(events[k].whello.labels, "identity")
  }

  ghost predicate IdentitiesOk(ws: seq<WorkerRecord>)
  {
    && (forall i :: 0 <= i < |ws| ==> Labelled(ws[i].labels))
    && (forall i, j :: 0 <= i < j < |ws| ==> IdentityOf(ws[i]) != IdentityOf(ws[j]))
  }

  ghost predicate NamesOk(ws: seq<WorkerRecord>)
  {
    forall i :: 0 <= i < |ws| ==> ws[i].hostname == IdentityOf(ws[i])
  }

  lemma LabelsChangeOnlyOnJoin(s: State, e: Event)
    requires !e.WorkerJoins?
    ensures var s' := Next(s, e);
      && |s'.workers| == |s.workers|
      && forall i :: 0 <= i < |s.workers| ==> s'.workers[i].labels == s.workers[i].labels && s'.workers[i].hostname == s.workers[i].hostname
  {
  }

  lemma JoinKeepsIdentities(s: State, e: Event)
    requires IdentitiesOk(s.workers) && e.WorkerJoins? && Labelled(e.whello.labels)
    ensures IdentitiesOk(Next(s, e).workers)
  {
    var ws, ws' := s.workers, Next(s, e).workers;
    var identity := Preferred(e.whello.labels);
    assert identity == Label(e.whello.labels, "identity") != "";
    var i := WorkerMatch(ws, e.whello);
    var slot := if i.Some? then i.value else |ws|;
    assert IdentityOf(ws'[slot]) == identity;
    assert forall j :: 0 <= j < |ws'| && j != slot ==> ws'[j] == ws[j];
    forall j | 0 <= j < |ws| && j != slot ensures IdentityOf(ws[j]) != identity {
      if IdentityMatch(ws, identity).Some? {
        assert HasIdentity(ws[slot], identity);
      } else {
        assert !HasIdentity(ws[j], identity);
      }
    }
  }

  /** If every hello carries two equal, non-empty identity labels, no two worker records ever share an identity. */
  lemma {:induction false} IdentitiesStayDistinct(events: seq<Event>)
    requires HellosLabelled(events)
    ensures IdentitiesOk(Execute(events).state.workers)
  {
    if events != [] {
      var before, e := events[..|events| - 1], events[|events| - 1];
      IdentitiesStayDistinct(before);
      if e.WorkerJoins? {
        JoinKeepsIdentities(Execute(before).state, e);
      } else {
        LabelsChangeOnlyOnJoin(Execute(before).state, e);
      }
    }
  }

  /** The identity is known, or no record is found through the hostname either. */
  predicate KeepsIdentities(ws: seq<WorkerRecord>, hello: WorkerHello)
  {
    || IdentityMatch(ws, Label(hello.labels, "identity")).Some?
    || hello.hostname == "" || HostnameMatch(ws, hello.hostname).None?
  }

  /** Records keep their place, their id and their identity. */
  ghost predicate SameIdentities(ws: seq<WorkerRecord>, ws': seq<WorkerRecord>)
  {
    |ws| <= |ws'| && forall i :: 0 <= i < |ws| ==> ws'[i].id == ws[i].id && IdentityOf(ws'[i]) == IdentityOf(ws[i])
  }

  /** A labelled registration leaves all identities in place iff it meets the guard. */
  lemma JoinKeepsIdentitiesIff(s: State, e: Event)
    requires IdentitiesOk(s.workers) && e.WorkerJoins? && Labelled(e.whello.labels)
    ensures SameIdentities(s.workers, Next(s, e).workers) <==> KeepsIdentities(s.workers, e.whello)
  {
    var ws, ws' := s.workers, Next(s, e).workers;
    var identity := Label(e.whello.labels, "identity");
    var m := WorkerMatch(ws, e.whello);
    if m.Some? {
      assert IdentityOf(ws'[m.value]) == identity;
      assert forall j :: 0 <= j < |ws| && j != m.value ==> ws'[j] == ws[j];
      if IdentityMatch(ws, identity).Some? {
        assert HasIdentity(ws[m.value], identity);
      } else {
        assert !HasIdentity(ws[m.value], identity);
      }
    } else {
      assert forall j :: 0 <= j < |ws| ==> ws'[j] == ws[j];
    }
  }

  ghost predicate JoinsGuarded(events: seq<Event>)
  {
    forall k :: 0 <= k < |events| && events[k].WorkerJoins? ==>
      KeepsIdentities(WorkersAt(events, k), events[k].whello)
  }

  /** From every point of the run to every later one, all records keep their identities. */
  ghost predicate StableThroughout(events: seq<Event>)
  {
    forall j, k :: 0 <= j <= k <= |events| ==>
      SameIdentities(WorkersAt(events, j), WorkersAt(events, k))
  }

  lemma CallKeepsIdentitiesIff(s: State, e: Event)
    requires IdentitiesOk(s.workers) && (e.WorkerJoins? ==> Labelled(e.whello.labels))
    ensures SameIdentities(s.workers, Next(s, e).workers)
            <==> (e.WorkerJoins? ==> KeepsIdentities(s.workers, e.whello))
  {
    if e.WorkerJoins? {
      JoinKeepsIdentitiesIff(s, e);
    } else {
      LabelsChangeOnlyOnJoin(s, e);
      TokensChangeOnlyOnJoin(s, e);
    }
  }

  /** The workers after the first k events. */
  function WorkersAt(events: seq<Event>, k: nat): seq<WorkerRecord>
    requires k <= |events|
  {
    Execute(events[..k]).state.workers
  }

  lemma PrefixIsLabelled(events: seq<Event>, k: nat)
    requires HellosLabelled(events) && k <= |events|
    ensures HellosLabelled(events[..k])
  {
  }

  lemma ExecuteNext(events: seq<Event>, k: nat)
    requires k < |events|
    ensures Execute(events[..k + 1]).state == Next(Execute(events[..k]).state, events[k])
  {
    assert events[..k + 1][..k] == events[..k];
  }

  lemma StepKeepsIdentitiesIff(events: seq<Event>, k: nat)
    requires HellosLabelled(events) && k < |events|
    ensures SameIdentities(WorkersAt(events, k), WorkersAt(events, k + 1))
            <==> (events[k].WorkerJoins? ==> KeepsIdentities(WorkersAt(events, k), events[k].whello))
  {
    ExecuteNext(events, k);
    PrefixIsLabelled(events, k);
    IdentitiesStayDistinct(events[..k]);
    CallKeepsIdentitiesIff(Execute(events[..k]).state, events[k]);
  }

  lemma SameIdentitiesTrans(ws: seq<WorkerRecord>, ws': seq<WorkerRecord>, ws'': seq<WorkerRecord>)
    requires SameIdentities(ws, ws') && SameIdentities(ws', ws'')
    ensures SameIdentities(ws, ws'')
  {
  }

  lemma GuardedStepIsStable(events: seq<Event>, k: nat)
    requires HellosLabelled(events) && JoinsGuarded(events) && k < |events|
    ensures SameIdentities(WorkersAt(events, k), WorkersAt(events, k + 1))
  {
    StepKeepsIdentitiesIff(events, k);
  }

  lemma {:induction false} ChainIsStable(history: seq<seq<WorkerRecord>>, j: nat, k: nat)
    requires j <= k < |history| && forall i :: 0 <= i < |history| - 1 ==> SameIdentities(history[i], history[i + 1])
    ensures SameIdentities(history[j], history[k])
    decreases k
  {
    if j < k {
      ChainIsStable(history, j, k - 1);
      assert SameIdentities(history[k - 1], history[k - 1 + 1]);
      SameIdentitiesTrans(history[j], history[k - 1], history[k]);
    }
  }

  lemma GuardedIsStable(events: seq<Event>, j: nat, k: nat)
    requires HellosLabelled(events) && JoinsGuarded(events) && j <= k <= |events|
    ensures SameIdentities(WorkersAt(events, j), WorkersAt(events, k))
  {
    var history := seq(|events| + 1, i requires 0 <= i <= |events| => WorkersAt(events, i));
    forall i | 0 <= i < |history| - 1 ensures SameIdentities(history[i], history[i + 1]) {
      GuardedStepIsStable(events, i);
    }
    ChainIsStable(history, j, k);
  }

  /**
   If hellos carry equal identity labels, worker ids stay with their identities throughout a run iff every
   registration knows its identity or finds no record through its hostname.
   */
  lemma IdentityIsStable(events: seq<Event>)
    requires HellosLabelled(events)
    ensures StableThroughout(events) <==> JoinsGuarded(events)
  {
    if JoinsGuarded(events) {
      forall j, k | 0 <= j <= k <= |events|
        ensures SameIdentities(WorkersAt(events, j), WorkersAt(events, k))
      {
        GuardedIsStable(events, j, k);
      }
    }
    if StableThroughout(events) {
      forall k | 0 <= k < |events| && events[k].WorkerJoins?
        ensures KeepsIdentities(WorkersAt(events, k), events[k].whello)
      {
        StepKeepsIdentitiesIff(events, k);
      }
    }
  }

  lemma {:induction false} NamesHold(events: seq<Event>)
    requires HellosNamed(events)
    ensures NamesOk(Execute(events).state.workers)
  {
    if events != [] {
      var before, e := events[..|events| - 1], events[|events| - 1];
      NamesHold(before);
      if e.WorkerJoins? {
        JoinKeepsAllNames(Execute(before).state, e);
      } else {
        LabelsChangeOnlyOnJoin(Execute(before).state, e);
      }
    }
  }

  lemma JoinKeepsAllNames(s: State, e: Event)
    requires NamesOk(s.workers) && e.WorkerJoins?
    requires Labelled(e.whello.labels) && e.whello.hostname == Label(e.whello.labels, "identity")
    ensures NamesOk(Next(s, e).workers)
  {
    var ws, ws' := s.workers, Next(s, e).workers;
    var m := WorkerMatch(ws, e.whello);
    var slot := if m.Some? then m.value else |ws|;
    assert ws'[slot].hostname == IdentityOf(ws'[slot]);
    assert forall j :: 0 <= j < |ws'| && j != slot ==> ws'[j] == ws[j];
  }

  /** Clients whose hostname is their identity always meet the guard. */
  lemma NamedClientsAreStable(events: seq<Event>)
    requires HellosNamed(events)
    ensures StableThroughout(events)
  {
    forall k | 0 <= k < |events| && events[k].WorkerJoins?
      ensures KeepsIdentities(WorkersAt(events, k), events[k].whello)
    {
      var ws := WorkersAt(events, k);
      NamesHold(events[..k]);
      var j := HostnameMatch(ws, events[k].whello.hostname);
      if j.Some? {
        assert HasIdentity(ws[j.value], events[k].whello.hostname);
      }
    }
    IdentityIsStable(events);
  }

  /** A registration that does not meet the guard: a shared hostname hands the record of one identity to another. */
  lemma SharedHostnameStealsRecord(hostname: string, first: string, second: string, token: string, now: int)
    requires hostname != "" && first != "" && second != "" && first != second
    ensures
      var hello := (name: string) => WorkerHello(hostname, map["identity" := name, "worker_identity" := name]);
      var s1 := RegisterWorker(Initial, hello(first), token, now).0;
      var (s2, session) := RegisterWorker(s1, hello(second), token, now);
      && session.id == s1.workers[0].id
      && IdentityOf(s1.workers[0]) == first && IdentityOf(s2.workers[0]) == second && |s2.workers| == 1
  {
    var labels := (name: string) => map["identity" := name, "worker_identity" := name];
    var s1 := RegisterWorker(Initial, WorkerHello(hostname, labels(first)), token, now).0;
    assert s1.workers[0].hostname == hostname && !HasIdentity(s1.workers[0], second);
    assert WorkerMatch(s1.workers, WorkerHello(hostname, labels(second))) == Some(0);
  }

  // ----- what the worker's client sends -----

  datatype ClientConfig = ClientConfig(identity: string, hostname: string, labels: map<string, string>)

  function WithDefault(labels: map<string, string>, key: string, value: string): map<string, string>
  {
    if key in labels then labels else labels[key := value]
  }

  function HelloOf(c: ClientConfig): WorkerHello
  {
    WorkerHello(
      if c.hostname == "" then c.identity else c.hostname,
      if c.identity == "" then c.labels
      else WithDefault(WithDefault(c.labels, "identity", c.identity), "worker_identity", c.identity))
  }

  /** A client that leaves hostname and identity labels to their defaults sends the hellos the stability result needs. */
  lemma DefaultHelloIsNamed(c: ClientConfig)
    requires c.identity != "" && "identity" !in c.labels && "worker_identity" !in c.labels
    ensures var hello := HelloOf(c);
      && Labelled(hello.labels) && Label(hello.labels, "identity") == c.identity
      && (hello.hostname == c.identity <==> c.hostname in {"", c.identity})
  {
  }

  /** Configured labels and hostname are sent as they are; the identity only fills what is missing. */
  lemma HelloKeepsConfig(c: ClientConfig)
    ensures var hello := HelloOf(c);
      && (hello.hostname == if c.hostname != "" then c.hostname else c.identity)
      && (forall key :: key in c.labels ==> key in hello.labels && hello.labels[key] == c.labels[key])
      && (forall key :: key in hello.labels && key !in c.labels ==>
            c.identity != "" && key in {"identity", "worker_identity"} && hello.labels[key] == c.identity)
      && (c.identity != "" ==> "identity" in hello.labels && "worker_identity" in hello.labels)
  {
  }
}
