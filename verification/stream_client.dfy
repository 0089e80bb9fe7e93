/** The worker's rollout stream: its connection always belongs to the current target. */
module StreamClient {
  import opened Prelude
  import opened Trajectory

  datatype Attempt = Attempt(endpoint: string, batchId: nat, rollouts: seq<Rollout>, ok: bool)

  /** Batch ids number the attempts from 1, failed writes included. */
  ghost predicate Numbered(attempts: seq<Attempt>)
  {
    forall k :: 0 <= k < |attempts| ==> attempts[k].batchId == k + 1 && attempts[k].rollouts != [] && attempts[k].endpoint != ""
  }

  class RolloutStreamClient {
    var target: string
    var stream: Option<string>        // the endpoint the open stream is connected to
    var batchSequence: nat
    ghost var attempts: seq<Attempt>  // every write on any stream

    ghost predicate Valid()
      reads this
    {
      && (stream.Some? ==> stream.value == target != "")
      && batchSequence == |attempts| && Numbered(attempts)
    }

    constructor (target: string)
      ensures Valid() && this.target == target && attempts == []
    {
      this.target, stream, batchSequence, attempts := target, None, 0, [];
    }

    /** A changed target drops the stream; the same target keeps it. */
    method SetTarget(newTarget: string)
      requires Valid()
      modifies this
      ensures Valid() && target == newTarget && attempts == old(attempts)
      ensures stream == if old(target) == newTarget then old(stream) else None
    {
      if target == newTarget { return; }
      target := newTarget;
      ResetStream();
    }

    method ResetStream()
      modifies this`stream
      ensures stream == None
    {
      stream := None;
    }

    method EnsureStream(opens: bool) returns (ok: bool)
      requires Valid()
      modifies this`stream
      ensures Valid() && (ok <==> stream.Some?)
      ensures ok <==> old(stream).Some? || (target != "" && opens)
    {
      if stream.Some? { return true; }
      if target == "" { return false; }
      if !opens {
        ResetStream();
        return false;
      }
      stream := Some(target);
      return true;
    }

    /** opens and writes say how the network answers; a written batch went to the current target under the next id. */
    method Send(batch: seq<Rollout>, opens: bool, writes: bool) returns (ok: bool)
      requires Valid()
      modifies this
      ensures Valid() && target == old(target)
      ensures ok <==> batch == [] || (target != "" && (old(stream).Some? || opens) && writes)
      ensures attempts == old(attempts)
                          + if batch != [] && target != "" && (old(stream).Some? || opens)
                            then [Attempt(target, |old(attempts)| + 1, batch, ok)] else []
      ensures batch != [] && !ok ==> stream == None
    {
      if batch == [] { return true; }
      if target == "" { return false; }
      var connected := EnsureStream(opens);
      if !connected { return false; }
      batchSequence := batchSequence + 1;
      attempts := attempts + [Attempt(stream.value, batchSequence, batch, writes)];
      if !writes {
        ResetStream();
        return false;
      }
      return true;
    }
  }

  function Delivered(attempts: seq<Attempt>): (r: seq<Attempt>)
  {
    if attempts == [] then []
    else Delivered(attempts[..|attempts| - 1]) + if attempts[|attempts| - 1].ok then [attempts[|attempts| - 1]] else []
  }

  /** What learners receive carries strictly increasing batch ids, so no batch is delivered twice. */
  lemma {:induction false} DeliveredIdsIncrease(attempts: seq<Attempt>)
    requires Numbered(attempts)
    ensures Ordered(Delivered(attempts), attempts)
  {
    if attempts != [] {
      var front := attempts[..|attempts| - 1];
      DeliveredIdsIncrease(front);
      OrderedExtends(Delivered(front), front, attempts[|attempts| - 1]);
      assert attempts == front + [attempts[|attempts| - 1]];
    }
  }

  /** d consists of successful attempts with strictly increasing batch ids. */
  ghost predicate Ordered(d: seq<Attempt>, attempts: seq<Attempt>)
  {
    && (forall k :: 0 <= k < |d| ==> d[k].ok && 1 <= d[k].batchId <= |attempts| && attempts[d[k].batchId - 1] == d[k])
    && (forall j, k :: 0 <= j < k < |d| ==> d[j].batchId < d[k].batchId)
  }

  lemma OrderedExtends(d: seq<Attempt>, attempts: seq<Attempt>, a: Attempt)
    requires Ordered(d, attempts) && a.batchId == |attempts| + 1
    ensures Ordered(d, attempts + [a])
    ensures a.ok ==> Ordered(d + [a], attempts + [a])
  {
  }
}
