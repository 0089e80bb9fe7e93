/** The coordinator's in-memory registry (`CoordinatorState`), with its fields updated in place. */
module Registry {
  import opened Prelude
  import opened RegistrySpec
  import Invariants = RegistryInvariants
  import Runs = RegistryRuns

  class CoordinatorState {
    var workerSeq: nat
    var learnerSeq: nat
    var workers: seq<WorkerRecord>
    var learners: seq<LearnerRecord>
    var active: Option<string>
    ghost var log: seq<Directive>

    ghost function Contents(): State
      reads this
    {
      State(workerSeq, learnerSeq, workers, learners, active, log)
    }

    ghost predicate Valid()
      reads this
    {
      Invariants.WellFormed(Contents())
    }

    constructor ()
      ensures Contents() == Initial && Valid()
    {
      workerSeq, learnerSeq, workers, learners, active, log := 0, 0, [], [], None, [];
    }

    method FindWorker(id: string) returns (r: Option<nat>)
      ensures r == WorkerIndex(workers, id)
    {
      for i := 0 to |workers|
        invariant forall j :: 0 <= j < i ==> workers[j].id != id
      {
        if workers[i].id == id { return Some(i); }
      }
      return None;
    }

    method FindLearner(id: string) returns (r: Option<nat>)
      ensures r == LearnerIndex(learners, id)
    {
      for i := 0 to |learners|
        invariant forall j :: 0 <= j < i ==> learners[j].id != id
      {
        if learners[i].id == id { return Some(i); }
      }
      return None;
    }

    method FindWorkerMatch(hello: WorkerHello) returns (r: Option<nat>)
      ensures r == WorkerMatch(workers, hello)
    {
      var identity := Preferred(hello.labels);
      if identity != "" {
        for i := 0 to |workers|
          invariant forall j :: 0 <= j < i ==> !HasIdentity(workers[j], identity)
        {
          if HasIdentity(workers[i], identity) { return Some(i); }
        }
      }
      if hello.hostname != "" {
        for i := 0 to |workers|
          invariant forall j :: 0 <= j < i ==> workers[j].hostname != hello.hostname
        {
          if workers[i].hostname == hello.hostname { return Some(i); }
        }
      }
      return None;
    }

    method FindLearnerMatch(hello: LearnerHello) returns (r: Option<nat>)
      ensures r == LearnerMatch(learners, hello)
    {
      for i := 0 to |learners|
        invariant forall j :: 0 <= j < i ==> !LearnerMatches(learners[j], hello)
      {
        if learners[i].endpoint == hello.endpoint && learners[i].endpoint != "" { return Some(i); }
        if hello.hostname != "" && learners[i].hostname == hello.hostname { return Some(i); }
      }
      return None;
    }

    static method Max(ls: seq<LearnerRecord>) returns (k: nat)
      requires ls != []
      ensures k == Newest(ls)
    {
      k := 0;
      for i := 1 to |ls|
        invariant IsNewest(ls[..i], k)
      {
        if ls[i].lastHeartbeat > ls[k].lastHeartbeat { k := i; }
      }
      assert ls[..|ls|] == ls;
    }

    static method WithEndpoint(ls: seq<LearnerRecord>) returns (candidates: seq<LearnerRecord>)
      ensures candidates == Candidates(ls)
    {
      candidates := [];
      for i := 0 to |ls|
        invariant candidates == Candidates(ls[..i])
      {
        CandidatesSnoc(ls[..i], ls[i]);
        assert ls[..i + 1] == ls[..i] + [ls[i]];
        if ls[i].endpoint != "" { candidates := candidates + [ls[i]]; }
      }
      assert ls[..|ls|] == ls;
    }

    method ActiveRecord() returns (r: Option<LearnerRecord>)
      ensures (if r.Some? then r.value.endpoint else "") == Endpoint(Contents())
      ensures r.Some? <==> active.Some? && LearnerIndex(learners, active.value).Some?
    {
      if active.None? { return None; }
      var found := FindLearner(active.value);
      return if found.Some? then Some(learners[found.value]) else None;
    }

    method ChooseActive(id: Option<string>)
      modifies this`active
      ensures active == Chosen(old(Contents()), id)
    {
      var found := None;
      if id.Some? { found := FindLearner(id.value); }
      if found.Some? {
        active := id;
      } else if active.Some? {
        found := FindLearner(active.value);
        if found.None? { active := None; }
      }
    }

    method UpdateActiveLearner(id: Option<string>) returns (r: Option<LearnerRecord>)
      modifies this`active
      ensures Contents() == UpdateActive(old(Contents()), id)
      ensures (if r.Some? then r.value.endpoint else "") == Endpoint(Contents())
    {
      ChooseActive(id);
      ghost var chosen := Contents();
      r := ActiveRecord();
      if r.Some? && r.value.endpoint != "" { return; }
      if learners != [] {
        var candidates := WithEndpoint(learners);
        if candidates != [] {
          var newest := Max(candidates);
          active := Some(candidates[newest].id);
        } else if active.None? {
          var newest := Max(learners);
          active := Some(learners[newest].id);
        }
      }
      assert Contents() == FallBack(chosen);
      r := ActiveRecord();
    }

    method CurrentLearnerEndpoint() returns (endpoint: string)
      modifies this`active
      ensures Contents() == UpdateActive(old(Contents()), None)
      ensures endpoint == Endpoint(Contents())
    {
      var current := UpdateActiveLearner(None);
      endpoint := if current.Some? then current.value.endpoint else "";
    }

    static method PutDroppingOldest(queue: seq<Directive>, d: Directive) returns (r: seq<Directive>)
      ensures r == Enqueue(queue, d)
    {
      r := queue;
      while |r| >= QUEUE_CAPACITY
        invariant IsSuffix(r, queue) && (r == queue || |r| >= QUEUE_CAPACITY - 1)
      {
        r := r[1..];
      }
      r := r + [d];
    }

    method PushDirective(id: string, d: Directive)
      modifies this`workers
      ensures WorkerIndex(old(workers), id).None? ==> workers == old(workers)
      ensures var i := WorkerIndex(old(workers), id);
        i.Some? ==> workers == old(workers)[i.value := Pushed(old(workers)[i.value], d)]
    {
      var i := FindWorker(id);
      if i.None? { return; }
      var queue := PutDroppingOldest(workers[i.value].queue, d);
      workers := workers[i.value := workers[i.value].(queue := queue)];
    }

    method PushDirectiveToAll(d: Directive)
      requires Invariants.WorkersOk(Contents())
      modifies this`workers, this`log
      ensures Contents() == PushAll(old(Contents()), d)
    {
      Invariants.WorkerIdsAreDistinct(Contents());
      var ids := seq(|workers|, i requires 0 <= i < |workers| reads this => workers[i].id);
      PushToEach(ids, d);
      PushedUpToAll(old(Contents()), workers, d);
      log := log + [d];
    }

    method PushToEach(ids: seq<string>, d: Directive)
      requires DistinctIds(workers) && |ids| == |workers| && forall i :: 0 <= i < |ids| ==> ids[i] == workers[i].id
      modifies this`workers
      ensures PushedUpTo(old(workers), workers, d, |ids|)
    {
      for i := 0 to |ids|
        invariant PushedUpTo(old(workers), workers, d, i)
      {
        PushOne(old(workers), workers, d, i);
        PushDirective(ids[i], d);
      }
    }

    /** Announce the endpoint when it is no longer `previous`. */
    method SwitchIfChanged(previous: string) returns (pushed: bool)
      requires Invariants.WorkersOk(Contents()) && Invariants.Settled(Contents())
      modifies this
      ensures Contents() == Announce(previous, old(Contents()))
      ensures pushed <==> previous != Endpoint(old(Contents()))
    {
      Invariants.UpdateActiveIsIdle(Contents());
      var current := CurrentLearnerEndpoint();
      pushed := previous != current;
      if pushed {
        var target := CurrentLearnerEndpoint();
        PushSwitchLearnerDirective(target);
      }
    }

    method PushSwitchLearnerDirective(target: string)
      requires Invariants.WorkersOk(Contents())
      modifies this`workers, this`log
      ensures Contents() == PushAll(old(Contents()), Directive(SwitchLearner, target))
    {
      PushDirectiveToAll(Directive(SwitchLearner, target));
    }

    method RegisterWorker(hello: WorkerHello, token: string, now: int) returns (session: Session)
      requires Valid()
      modifies this
      ensures Valid()
      ensures (Contents(), session) == RegistrySpec.RegisterWorker(old(Contents()), hello, token, now)
    {
      Runs.NextKeepsWellFormed(Contents(), Runs.WorkerJoins(hello, token, now));
      Invariants.UpdateActiveIsIdle(Contents());
      var existing := FindWorkerMatch(hello);
      var id;
      if existing.None? {
        workerSeq := workerSeq + 1;
        id := WorkerId(workerSeq);
        workers := workers + [WorkerRecord(id, token, OrUnknown(hello.hostname), hello.labels, now, "", [])];
      } else {
        var record := workers[existing.value];
        id := record.id;
        workers := workers[existing.value := record.(token := token, hostname := OrUnknown(hello.hostname),
                                                     labels := hello.labels, lastHeartbeat := now, phase := "")];
      }
      Invariants.UpdateActiveIsIdle(Contents());
      var target := CurrentLearnerEndpoint();
      session := Session(id, token, target);
    }

    method RecordWorkerHeartbeat(beat: WorkerBeat, now: int) returns (r: Result<nat, Error>)
      requires Valid()
      modifies this`workers
      ensures Valid()
      ensures (Contents(), r) == BeatWorker(old(Contents()), beat, now)
    {
      Runs.NextKeepsWellFormed(Contents(), Runs.WorkerBeats(beat, now));
      var i := FindWorker(beat.id);
      if i.None? { return Err(NotRegistered); }
      var record := workers[i.value];
      if record.token != beat.token { return Err(InvalidToken); }
      record := record.(lastHeartbeat := if beat.unixMs != 0 then beat.unixMs else now);
      if beat.phase.Some? { record := record.(phase := beat.phase.value); }
      workers := workers[i.value := record];
      return Ok(i.value);
    }

    method MarkWorkerDisconnected(id: string, now: int)
      requires Valid()
      modifies this`workers
      ensures Valid()
      ensures Contents() == DisconnectWorker(old(Contents()), id, now)
    {
      Runs.NextKeepsWellFormed(Contents(), Runs.WorkerLeaves(id, now));
      var i := FindWorker(id);
      if i.None? { return; }
      workers := workers[i.value := workers[i.value].(lastHeartbeat := now, phase := "offline")];
    }

    method CleanupStaleWorkers(timeout: real, now: int)
      requires Valid()
      modifies this`workers
      ensures Valid()
      ensures Contents() == SweepWorkers(old(Contents()), timeout, now)
    {
      ghost var was := Contents();
      Runs.NextKeepsWellFormed(was, Runs.WorkersSwept(timeout, now));
      Invariants.WorkerIdsAreDistinct(was);
      if timeout <= 0.0 { return; }
      var threshold := now - (timeout * 1000.0).Floor;
      ghost var swept := SweepWorkers(was, timeout, now).workers;
      for i := 0 to |workers|
        invariant |workers| == |was.workers|
        invariant forall j :: 0 <= j < i ==> workers[j] == swept[j]
        invariant forall j :: i <= j < |workers| ==> workers[j] == was.workers[j]
      {
        if workers[i].lastHeartbeat < threshold && workers[i].phase != "offline" {
          workers := workers[i := workers[i].(lastHeartbeat := now, phase := "offline")];
        }
      }
      assert workers == swept;
    }

    method Enrol(hello: LearnerHello, token: string, now: int) returns (id: string)
      modifies this`learnerSeq, this`learners
      ensures (Contents(), id) == EnrolLearner(old(Contents()), hello, token, now)
    {
      var existing := FindLearnerMatch(hello);
      if existing.None? {
        learnerSeq := learnerSeq + 1;
        id := LearnerId(learnerSeq);
        learners := learners + [LearnerRecord(id, token, OrUnknown(hello.hostname), hello.endpoint, now)];
      } else {
        var record := learners[existing.value];
        id := record.id;
        learners := learners[existing.value :=
          record.(token := token, hostname := if hello.hostname != "" then hello.hostname else record.hostname,
                  endpoint := hello.endpoint, lastHeartbeat := now)];
      }
    }

    method RegisterLearner(hello: LearnerHello, token: string, now: int) returns (id: string)
      requires Valid()
      modifies this
      ensures Valid()
      ensures Contents() == RegistrySpec.RegisterLearner(old(Contents()), hello, token, now)
      ensures id == EnrolLearner(old(Contents()), hello, token, now).1
    {
      ghost var was := Contents();
      Invariants.RegisterLearnerKeeps(was, hello, token, now);
      Invariants.EnrolKeeps(was, hello, token, now);
      Invariants.UpdateActiveIsIdle(was);
      var previous := CurrentLearnerEndpoint();
      id := Enrol(hello, token, now);
      Invariants.UpdateActiveSettles(Contents(), Some(id));
      var record := UpdateActiveLearner(Some(id));
      var pushed := SwitchIfChanged(previous);
      if !pushed && record.Some? && previous != record.value.endpoint {
        // the second announcement of the source is never made
        assert false;
      }
    }

    method RecordLearnerHeartbeat(payload: Option<LearnerBeat>, now: int) returns (r: Result<nat, Error>)
      requires Valid()
      modifies this
      ensures Valid()
      ensures (Contents(), r) == BeatLearner(old(Contents()), payload, now)
    {
      ghost var was := Contents();
      Invariants.BeatLearnerKeeps(was, payload, now);
      if payload.None? { return Err(MissingPayload); }
      var beat := payload.value;
      Invariants.UpdateActiveIsIdle(was);
      var previous := CurrentLearnerEndpoint();
      var i := FindLearner(beat.id);
      if i.None? { return Err(NotRegistered); }
      var record := learners[i.value];
      if record.token != beat.token { return Err(InvalidToken); }
      record := record.(lastHeartbeat := if beat.unixMs != 0 then beat.unixMs else now);
      if beat.endpoint != "" { record := record.(endpoint := beat.endpoint); }
      Invariants.RewriteKeepsLearners(was, i.value, record);
      learners := learners[i.value := record];
      Invariants.UpdateActiveSettles(Contents(), Some(beat.id));
      var _ := UpdateActiveLearner(Some(beat.id));
      var _ := SwitchIfChanged(previous);
      return Ok(i.value);
    }

    static method CollectStale(ls: seq<LearnerRecord>, threshold: int) returns (stale: seq<string>)
      ensures stale == StaleIds(ls, threshold)
    {
      stale := [];
      for i := 0 to |ls|
        invariant stale == StaleIds(ls[..i], threshold)
      {
        assert ls[..i + 1][..i] == ls[..i];
        if ls[i].lastHeartbeat < threshold { stale := stale + [ls[i].id]; }
      }
      assert ls[..|ls|] == ls;
    }

    method PopLearners(ids: seq<string>)
      modifies this`learners
      ensures learners == Without(old(learners), ids)
    {
      ghost var was := learners;
      FilterAll(learners, (l: LearnerRecord) => l.id !in []);
      for i := 0 to |ids|
        invariant learners == Without(was, ids[..i])
      {
        DropNext(was, ids, i);
        learners := Drop(learners, ids[i]);
      }
      assert ids[..|ids|] == ids;
    }

    /** Remove the stale learners, choose again, and announce a changed endpoint. */
    method Evict(stale: seq<string>, ghost threshold: int)
      requires Invariants.WorkersOk(Contents()) && Invariants.LearnersOk(Contents()) && Invariants.Settled(Contents())
      requires stale == StaleIds(learners, threshold)
      modifies this
      ensures var was := old(Contents());
        Contents() == Announce(Endpoint(was), UpdateActive(was.(learners := Survivors(was.learners, threshold)), None))
    {
      WithoutStaleIsSurvivors(learners, threshold);
      Invariants.SurvivorsKeepLearnersOk(Contents(), threshold);
      Invariants.UpdateActiveIsIdle(Contents());
      var previous := CurrentLearnerEndpoint();
      PopLearners(stale);
      Invariants.UpdateActiveSettles(Contents(), None);
      var _ := UpdateActiveLearner(None);
      var _ := SwitchIfChanged(previous);
    }

    method CleanupStaleLearners(timeout: real, now: int)
      requires Valid()
      modifies this
      ensures Contents() == SweepLearners(old(Contents()), timeout, now)
      ensures Valid()
    {
      Sweep(timeout, now);
      Invariants.SweepKeeps(old(Contents()), timeout, now);
    }

    method Sweep(timeout: real, now: int)
      requires Valid()
      modifies this
      ensures Contents() == SweepLearners(old(Contents()), timeout, now)
    {
      if timeout <= 0.0 || learners == [] { return; }
      var threshold := Threshold(timeout, now);
      var stale := CollectStale(learners, threshold);
      WithoutStaleIsSurvivors(learners, threshold);
      if stale == [] { return; }
      Evict(stale, threshold);
    }
  }

  ghost predicate DistinctIds(ws: seq<WorkerRecord>)
  {
    forall j, k :: 0 <= j < k < |ws| ==> ws[j].id != ws[k].id
  }

  /** The first i workers have the directive in their queues, the others not yet. */
  ghost predicate PushedUpTo(was: seq<WorkerRecord>, ws: seq<WorkerRecord>, d: Directive, i: nat)
  {
    |ws| == |was| && forall j :: 0 <= j < |was| ==> ws[j] == if j < i then Pushed(was[j], d) else was[j]
  }

  lemma PushOne(was: seq<WorkerRecord>, ws: seq<WorkerRecord>, d: Directive, i: nat)
    requires i < |was| && PushedUpTo(was, ws, d, i) && DistinctIds(was)
    ensures WorkerIndex(ws, was[i].id) == Some(i)
    ensures PushedUpTo(was, ws[i := Pushed(ws[i], d)], d, i + 1)
  {
    assert forall j :: 0 <= j < |ws| ==> ws[j].id == was[j].id;
    WorkerIndexIsUnique(ws, i);
  }

  lemma PushedUpToAll(s: State, ws: seq<WorkerRecord>, d: Directive)
    requires PushedUpTo(s.workers, ws, d, |s.workers|)
    ensures ws == PushAll(s, d).workers
  {
  }

  lemma WorkerIndexIsUnique(ws: seq<WorkerRecord>, i: nat)
    requires i < |ws| && DistinctIds(ws)
    ensures WorkerIndex(ws, ws[i].id) == Some(i)
  {
  }

  // ----- the loops of cleanup_stale_learners -----

  lemma {:induction false} CandidatesSnoc(ls: seq<LearnerRecord>, l: LearnerRecord)
    ensures Candidates(ls + [l]) == Candidates(ls) + (if l.endpoint != "" then [l] else [])
  {
    if ls != [] {
      assert (ls + [l])[1..] == ls[1..] + [l];
      CandidatesSnoc(ls[1..], l);
    }
  }

  function StaleIds(ls: seq<LearnerRecord>, threshold: int): (ids: seq<string>)
    ensures forall id :: id in ids <==> exists l :: l in ls && l.lastHeartbeat < threshold && l.id == id
  {
    if ls == [] then []
    else
      var last := ls[|ls| - 1];
      assert forall l :: l in ls <==> l in ls[..|ls| - 1] || l == last;
      StaleIds(ls[..|ls| - 1], threshold) + if last.lastHeartbeat < threshold then [last.id] else []
  }

  /** `dict.pop(id, None)` */
  function Drop(ls: seq<LearnerRecord>, id: string): seq<LearnerRecord>
  {
    Filter(ls, (l: LearnerRecord) => l.id != id)
  }

  function Without(ls: seq<LearnerRecord>, ids: seq<string>): seq<LearnerRecord>
  {
    Filter(ls, (l: LearnerRecord) => l.id !in ids)
  }

  lemma {:induction false} FilterAgrees<T>(xs: seq<T>, p: T -> bool, q: T -> bool)
    requires forall i :: 0 <= i < |xs| ==> p(xs[i]) == q(xs[i])
    ensures Filter(xs, p) == Filter(xs, q)
  {
    if xs != [] {
      FilterAgrees(xs[1..], p, q);
    }
  }

  lemma {:induction false} FilterAll<T>(xs: seq<T>, p: T -> bool)
    requires forall i :: 0 <= i < |xs| ==> p(xs[i])
    ensures Filter(xs, p) == xs
  {
    if xs != [] {
      FilterAll(xs[1..], p);
    }
  }

  lemma {:induction false} DropAfterWithout(ls: seq<LearnerRecord>, ids: seq<string>, id: string)
    ensures Drop(Without(ls, ids), id) == Without(ls, ids + [id])
  {
    if ls != [] {
      DropAfterWithout(ls[1..], ids, id);
    }
  }

  lemma DropNext(ls: seq<LearnerRecord>, ids: seq<string>, i: nat)
    requires i < |ids|
    ensures Drop(Without(ls, ids[..i]), ids[i]) == Without(ls, ids[..i + 1])
  {
    DropAfterWithout(ls, ids[..i], ids[i]);
    assert ids[..i + 1] == ids[..i] + [ids[i]];
  }

  /** Popping the stale ids one by one leaves exactly the learners that are not stale. */
  lemma WithoutStaleIsSurvivors(ls: seq<LearnerRecord>, threshold: int)
    requires Invariants.Distinct(ls)
    ensures Without(ls, StaleIds(ls, threshold)) == Survivors(ls, threshold)
    ensures StaleIds(ls, threshold) == [] <==> |Survivors(ls, threshold)| == |ls|
  {
    var ids := StaleIds(ls, threshold);
    forall i | 0 <= i < |ls| ensures ls[i].id !in ids <==> ls[i].lastHeartbeat >= threshold {
      if ls[i].id in ids {
        var l :| l in ls && l.lastHeartbeat < threshold && l.id == ls[i].id;
        var j :| 0 <= j < |ls| && ls[j] == l;
        Invariants.LearnerIndexIsUnique(ls, i);
        Invariants.LearnerIndexIsUnique(ls, j);
      } else {
        assert ls[i] in ls;
      }
    }
    FilterAgrees(ls, (l: LearnerRecord) => l.id !in ids, (l: LearnerRecord) => l.lastHeartbeat >= threshold);
    if ids == [] {
      FilterAll(ls, (l: LearnerRecord) => l.id !in ids);
    } else {
      assert ids[0] in ids;
      var l :| l in ls && l.lastHeartbeat < threshold && l.id == ids[0];
      assert l !in Survivors(ls, threshold);
    }
  }
}
