/** The two ends of one heartbeat stream: the coordinator's stream handler and the worker's directive handler. */
module HeartbeatStreams {
  import opened Prelude
  import opened RegistrySpec
  import Invariants = RegistryInvariants
  import opened Registry
  import opened Delivery

  /** `WorkerHeartbeatStream` with its forwarder; `wire` is what the handler has yielded and the worker not yet read. */
  class HeartbeatStream {
    const registry: CoordinatorState
    var open: bool
    var workerId: string        // of the last heartbeat, accepted or not; empty until one arrives
    var worker: Option<nat>     // whose record queue the forwarder reads; None until a heartbeat is accepted
    var sendQueue: seq<Directive>
    var sendTask: Option<Directive>
    var wire: seq<Directive>
    ghost var link: Link        // the same stream as seen by the delivery results

    ghost predicate Valid()
      reads this, registry
    {
      && registry.Valid()
      && (worker.Some? ==> worker.value < |registry.workers|)
      && (!open ==> worker.None? && wire == [] && sendTask.None? && sendQueue == [])
      && link.open == open && link.forwarding == worker.Some?
      && link.sendQueue == sendQueue && link.sendTask == sendTask && link.wire == wire
    }

    constructor (registry: CoordinatorState, ghost l: Link)
      requires registry.Valid() && !l.open && !l.forwarding && InTransit(l) == []
      ensures Valid() && open && workerId == "" && this.registry == registry
      ensures link == LinkStep(l, [], |registry.log|, Opened).0
    {
      this.registry := registry;
      open, workerId, worker, sendQueue, sendTask, wire := true, "", None, [], None, [];
      link := LinkStep(l, [], |registry.log|, Opened).0;
    }

    /**
     The worker id is remembered first. An accepted heartbeat starts the forwarder once; a refused one aborts the
     stream, and the cleanup then marks the worker it named offline.
     */
    method OnHeartbeat(beat: WorkerBeat, now: int) returns (r: Result<nat, Error>)
      requires Valid() && open
      modifies this, registry
      ensures Valid() && workerId == beat.id
      ensures r == BeatWorker(old(registry.Contents()), beat, now).1
      ensures r.Ok? ==>
        && registry.Contents() == BeatWorker(old(registry.Contents()), beat, now).0
        && link == LinkStep(old(link), [], |registry.log|, Heartbeat).0 && open
        && worker == if old(worker).Some? then old(worker) else Some(r.value)
      ensures r.Err? ==> !open && registry.Contents() == Left(old(registry.Contents()), beat.id, now)
      ensures r.Err? && old(worker).Some? ==>
        link == LinkStep(old(link), old(registry.workers[worker.value].queue), |registry.log|, Broken).0
    {
      workerId := beat.id;
      r := registry.RecordWorkerHeartbeat(beat, now);
      if r.Err? {
        Close(now);
        return;
      }
      if worker.None? {
        worker := Some(r.value);
      }
      link := LinkStep(link, [], |registry.log|, Heartbeat).0;
    }

    /** `_forward_directives`: one directive from the record queue to the send queue. */
    method Forward()
      requires Valid() && worker.Some? && registry.workers[worker.value].queue != []
      modifies this, registry
      ensures Valid() && open == old(open) && worker == old(worker) && workerId == old(workerId)
      ensures registry.Contents() == TakeDirective(old(registry.Contents()), worker.value)
      ensures (link, registry.workers[worker.value].queue)
              == LinkStep(old(link), old(registry.workers[worker.value].queue), |old(registry.log)|, Forwarded)
    {
      var i := worker.value;
      var queue := registry.workers[i].queue;
      link := LinkStep(link, queue, |registry.log|, Forwarded).0;
      QueueRewriteKeeps(registry.Contents(), i, queue[1..]);
      registry.workers := registry.workers[i := registry.workers[i].(queue := queue[1..])];
      sendQueue := sendQueue + [queue[0]];
    }

    method StartSend()
      requires Valid() && open && sendTask.None? && sendQueue != []
      modifies this
      ensures Valid() && open == old(open) && worker == old(worker) && workerId == old(workerId)
      ensures link == LinkStep(old(link), [], |registry.log|, SendTaken).0
    {
      link := LinkStep(link, [], |registry.log|, SendTaken).0;
      sendTask, sendQueue := Some(sendQueue[0]), sendQueue[1..];
    }

    method Yield()
      requires Valid() && sendTask.Some?
      modifies this
      ensures Valid() && open == old(open) && worker == old(worker) && workerId == old(workerId)
      ensures link == LinkStep(old(link), [], |registry.log|, Yielded).0
    {
      link := LinkStep(link, [], |registry.log|, Yielded).0;
      wire, sendTask := wire + [sendTask.value], None;
    }

    /** The handler's `finally`: both tasks are cancelled, what they held is gone, the named worker is offline. */
    method Close(now: int)
      requires Valid() && open
      modifies this, registry
      ensures Valid() && !open && workerId == old(workerId)
      ensures registry.Contents() == Left(old(registry.Contents()), workerId, now)
      ensures old(worker).Some? ==>
        link == LinkStep(old(link), old(registry.workers[worker.value].queue), |registry.log|, Broken).0
    {
      CancelTasks();
      if workerId != "" {
        registry.MarkWorkerDisconnected(workerId, now);
      }
    }

    method CancelTasks()
      requires Valid() && open
      modifies this
      ensures Valid() && !open && workerId == old(workerId)
      ensures old(worker).Some? ==>
        link == LinkStep(old(link), registry.workers[old(worker).value].queue, |registry.log|, Broken).0
    {
      var queue := if worker.Some? then registry.workers[worker.value].queue else [];
      link := LinkStep(link, queue, |registry.log|, Broken).0;
      open, worker, sendQueue, sendTask, wire := false, None, [], None, [];
    }
  }

  /** The registry after a stream whose last heartbeat named this worker. */
  function Left(s: State, id: string, now: int): State
  {
    if id == "" then s else DisconnectWorker(s, id, now)
  }

  /** A heartbeat with a wrong token takes the session's owner offline, although the owner's session stays valid. */
  lemma RefusalTakesOwnerOffline(s: State, beat: WorkerBeat, owner: string, now: int)
    requires Invariants.WellFormed(s) && BeatWorker(s, beat, now).1 == Err(InvalidToken)
    requires ValidateWorker(s, beat.id, owner).Ok?
    ensures var s' := Left(s, beat.id, now); var i := ValidateWorker(s, beat.id, owner);
      && s'.workers[i.value] == s.workers[i.value].(phase := "offline", lastHeartbeat := now)
      && (forall j :: 0 <= j < |s.workers| && j != i.value ==> s'.workers[j] == s.workers[j])
      && ValidateWorker(s', beat.id, owner) == i
  {
    var i := ValidateWorker(s, beat.id, owner).value;
    var s' := Left(s, beat.id, now);
    assert s.workers[i].id == WorkerId(i + 1);
    assert beat.id != "";
    assert s'.workers[i].id == beat.id;
    assert forall j :: 0 <= j < i ==> s'.workers[j] == s.workers[j];
  }

  class WorkerTargets {
    var policyTarget: string
    var rolloutTarget: string
    var stopRequested: bool

    /** `setup_control_plane`: a worker whose session names no learner does not start. */
    method SetUp(session: Session) returns (started: bool)
      modifies this
      ensures started <==> session.target != ""
      ensures started ==> policyTarget == rolloutTarget == session.target
      ensures !started ==> unchanged(this)
    {
      if session.target == "" { return false; }
      policyTarget := session.target;
      rolloutTarget := session.target;
      return true;
    }

    method HandleControlDirective(d: Directive)
      modifies this
      ensures policyTarget == (if d.kind == SwitchLearner then d.target else old(policyTarget))
      ensures rolloutTarget == (if d.kind == SwitchLearner then d.target else old(rolloutTarget))
      ensures stopRequested == (old(stopRequested) || d.kind == Shutdown)
    {
      match d.kind
      case SwitchLearner =>
        policyTarget := d.target;
        rolloutTarget := d.target;
      case Shutdown =>
        stopRequested := true;
      case Drain =>
    }

    /** Handling what a stream delivers, one directive after the other, ends on the target it settles on. */
    method HandleAll(ds: seq<Directive>)
      requires forall d :: d in ds ==> d.kind == SwitchLearner
      modifies this
      ensures policyTarget == Invariants.Settle(old(policyTarget), ds)
      ensures rolloutTarget == Invariants.Settle(old(rolloutTarget), ds)
    {
      for k := 0 to |ds|
        invariant policyTarget == Invariants.Settle(old(policyTarget), ds[..k])
        invariant rolloutTarget == Invariants.Settle(old(rolloutTarget), ds[..k])
      {
        HandleControlDirective(ds[k]);
      }
      assert ds[..|ds|] == ds;
    }
  }
}
