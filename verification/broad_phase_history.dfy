/** What an index holds after any run, told from the operations alone. */
module BroadPhaseHistory {
  import opened Prelude
  import opened BvhSpec
  import opened BroadPhaseSpec

  // ----- instances -----

  // What was added and where it was put last.
  datatype Tracked = Tracked(parts: seq<Part>, id: nat, pose: Pose)

  /** The position of the last one with the id. */
  function LastWith(tracked: seq<Tracked>, id: nat): (k: Option<nat>)
    ensures k.Some? ==> k.value < |tracked|
  {
    if tracked == [] then None
    else if tracked[|tracked| - 1].id == id then Some(|tracked| - 1)
    else LastWith(tracked[..|tracked| - 1], id)
  }

  predicate AddsInstance(op: Op, isStatic: bool)
  {
    op.AddOp? && op.added.model.Some? && op.added.isStatic == isStatic
  }

  function Grown(tracked: seq<Tracked>, op: Op, isStatic: bool): seq<Tracked>
  {
    if AddsInstance(op, isStatic)
    then tracked + [Tracked(op.added.model.value, op.added.entityId, op.added.pose)] else tracked
  }

  function Moved(tracked: seq<Tracked>, op: Op): seq<Tracked>
  {
    var k := if op.MoveOp? then LastWith(tracked, op.id) else None;
    if k.Some? then tracked[k.value := tracked[k.value].(pose := op.pose)] else tracked
  }

  /** The dynamic instances in the order of their addition, each where the last move of its id left it. */
  function Dynamics(ops: seq<Op>): seq<Tracked>
  {
    if ops == [] then []
    else Moved(Grown(Dynamics(ops[..|ops| - 1]), ops[|ops| - 1], false), ops[|ops| - 1])
  }

  function Statics(ops: seq<Op>): seq<Tracked>
  {
    if ops == [] then [] else Grown(Statics(ops[..|ops| - 1]), ops[|ops| - 1], true)
  }

  /** The instance has the tracked parts and id and lies at the tracked pose. */
  ghost predicate IsTracked(m: Motion, inst: Instance, t: Tracked)
  {
    inst == Instance(t.parts, Leaf(Placed(m, t.parts, t.pose), t.id))
  }

  ghost predicate AllTracked(m: Motion, instances: seq<Instance>, tracked: seq<Tracked>)
  {
    |instances| == |tracked| && forall k :: 0 <= k < |instances| ==> IsTracked(m, instances[k], tracked[k])
  }

  lemma {:induction false} LastWithIsLast(m: Motion, instances: seq<Instance>, tracked: seq<Tracked>, id: nat)
    requires AllTracked(m, instances, tracked)
    ensures LastWith(tracked, id).Some? ==> IsLast(instances, id, LastWith(tracked, id).value)
    ensures LastWith(tracked, id).None? ==> !HasEntity(instances, id)
  {
    if tracked != [] {
      var n := |tracked| - 1;
      assert IsTracked(m, instances[n], tracked[n]);
      LastWithIsLast(m, instances[..n], tracked[..n], id);
      if tracked[n].id != id && LastWith(tracked, id).None? {
        assert forall k :: 0 <= k < n ==> instances[..n][k] == instances[k];
      }
    }
  }

  lemma MoveIsTracked(ix: Index, m: Motion, tracked: seq<Tracked>, op: Op)
    requires Coherent(m, ix) && AllTracked(m, ix.dynamics, tracked) && op.MoveOp?
    ensures AllTracked(m, Move(ix, m, op.id, op.pose).dynamics, Moved(tracked, op))
  {
    LastWithIsLast(m, ix.dynamics, tracked, op.id);
    MoveMovesOne(ix, m, op.id, op.pose);
    if HasEntity(ix.dynamics, op.id) {
      var k: nat :| IsLast(ix.dynamics, op.id, k)
                    && Move(ix, m, op.id, op.pose).dynamics
                       == ix.dynamics[k := MakeInstance(m, ix.dynamics[k].parts, op.pose, op.id)];
      assert LastWith(tracked, op.id) == Some(k);
      assert IsTracked(m, ix.dynamics[k], tracked[k]);
    }
  }

  lemma TrackedSnoc(m: Motion, instances: seq<Instance>, tracked: seq<Tracked>, inst: Instance, t: Tracked)
    requires AllTracked(m, instances, tracked) && IsTracked(m, inst, t)
    ensures AllTracked(m, instances + [inst], tracked + [t])
  {
  }

  lemma AddIsTracked(ix: Index, m: Motion, op: Op, dynamics: seq<Tracked>, statics: seq<Tracked>)
    requires AllTracked(m, ix.dynamics, dynamics) && AllTracked(m, ix.statics, statics) && op.AddOp?
    ensures AllTracked(m, Add(ix, m, op.added).dynamics, Grown(dynamics, op, false))
    ensures AllTracked(m, Add(ix, m, op.added).statics, Grown(statics, op, true))
  {
    var a := op.added;
    if a.model.Some? {
      var t := Tracked(a.model.value, a.entityId, a.pose);
      var inst := Instance(t.parts, Leaf(Placed(m, t.parts, t.pose), t.id));
      if a.isStatic {
        TrackedSnoc(m, ix.statics, statics, inst, t);
      } else {
        TrackedSnoc(m, ix.dynamics, dynamics, inst, t);
      }
    }
  }

  lemma OtherOpsKeepInstances(ix: Index, m: Motion, op: Op)
    requires !op.AddOp?
    ensures Apply(ix, m, op).statics == ix.statics
    ensures !op.MoveOp? ==> Apply(ix, m, op).dynamics == ix.dynamics
  {
  }

  lemma StepIsTracked(ix: Index, m: Motion, op: Op, dynamics: seq<Tracked>, statics: seq<Tracked>)
    requires Coherent(m, ix) && AllTracked(m, ix.dynamics, dynamics) && AllTracked(m, ix.statics, statics)
    ensures AllTracked(m, Apply(ix, m, op).dynamics, Moved(Grown(dynamics, op, false), op))
    ensures AllTracked(m, Apply(ix, m, op).statics, Grown(statics, op, true))
  {
    if op.AddOp? {
      AddIsTracked(ix, m, op, dynamics, statics);
    } else {
      OtherOpsKeepInstances(ix, m, op);
      if op.MoveOp? { MoveIsTracked(ix, m, dynamics, op); }
    }
  }

  /** After any run, the instances are those that were added, each with the bounds of the pose it was given last. */
  lemma {:induction false} InstancesAreTracked(m: Motion, ops: seq<Op>)
    ensures AllTracked(m, Run(m, ops).dynamics, Dynamics(ops))
    ensures AllTracked(m, Run(m, ops).statics, Statics(ops))
  {
    if ops != [] {
      var before, op := ops[..|ops| - 1], ops[|ops| - 1];
      InstancesAreTracked(m, before);
      RunsAreCoherent(m, before);
      StepIsTracked(Run(m, before), m, op, Dynamics(before), Statics(before));
    }
  }

  // ----- the flag and the next id -----

  /** Dynamic instances were added after the last build of their tree, or it was never built. */
  function AwaitsBuild(ops: seq<Op>): bool
  {
    if ops == [] then true
    else if BuildsDynamics(ops[|ops| - 1]) then false
    else AddsInstance(ops[|ops| - 1], false) || AwaitsBuild(ops[..|ops| - 1])
  }

  lemma {:induction false} DirtyIffAwaitsBuild(m: Motion, ops: seq<Op>)
    ensures Run(m, ops).dirty <==> AwaitsBuild(ops)
  {
    if ops != [] {
      DirtyIffAwaitsBuild(m, ops[..|ops| - 1]);
      DirtyStep(Run(m, ops[..|ops| - 1]), m, ops[|ops| - 1]);
    }
  }

  lemma DirtyStep(ix: Index, m: Motion, op: Op)
    ensures Apply(ix, m, op).dirty <==> !BuildsDynamics(op) && (AddsInstance(op, false) || ix.dirty)
  {
  }

  /** Every added id, with or without a model, lies below n; an id of the full width wraps around to zero. */
  ghost predicate AllBelow(ops: seq<Op>, n: nat)
  {
    forall k :: 0 <= k < |ops| && ops[k].AddOp? ==> (ops[k].added.entityId + 1) % WIDTH <= n
  }

  lemma AllBelowSnoc(ops: seq<Op>, n: nat)
    requires ops != []
    ensures AllBelow(ops, n) <==>
      && AllBelow(ops[..|ops| - 1], n)
      && (ops[|ops| - 1].AddOp? ==> (ops[|ops| - 1].added.entityId + 1) % WIDTH <= n)
  {
    assert ops == ops[..|ops| - 1] + [ops[|ops| - 1]];
  }

  /** The next id is the least one above all added ids, as far as these do not wrap around. */
  lemma {:induction false} NextIdIsLeast(m: Motion, ops: seq<Op>, n: nat)
    ensures Run(m, ops).nextEntityId <= n <==> AllBelow(ops, n)
  {
    if ops != [] {
      var before := Run(m, ops[..|ops| - 1]);
      NextIdIsLeast(m, ops[..|ops| - 1], n);
      AllBelowSnoc(ops, n);
      NextIdStep(before, m, ops[|ops| - 1], n);
    }
  }

  lemma NextIdStep(ix: Index, m: Motion, op: Op, n: nat)
    ensures Apply(ix, m, op).nextEntityId <= n
            <==> ix.nextEntityId <= n && (op.AddOp? ==> (op.added.entityId + 1) % WIDTH <= n)
  {
    if op.AddOp? {
      AddTakesNextId(ix, m, op.added);
      NextIdIsGreater(ix.nextEntityId, op.added.entityId, n);
    } else {
      OtherOpsKeepNextId(ix, m, op);
    }
  }

  lemma AddTakesNextId(ix: Index, m: Motion, a: NewInstance)
    ensures Add(ix, m, a).nextEntityId == NextId(ix.nextEntityId, a.entityId)
  {
  }

  lemma NextIdIsGreater(next: nat, id: nat, n: nat)
    ensures NextId(next, id) <= n <==> next <= n && (id + 1) % WIDTH <= n
  {
  }

  lemma OtherOpsKeepNextId(ix: Index, m: Motion, op: Op)
    requires !op.AddOp?
    ensures Apply(ix, m, op).nextEntityId == ix.nextEntityId
  {
  }

  // ----- what a query answers -----

  /** The tracked instances that a query is to find. */
  function Overlapping(m: Motion, tracked: seq<Tracked>, q: Box): seq<nat>
  {
    if tracked == [] then []
    else
      var t := tracked[|tracked| - 1];
      Overlapping(m, tracked[..|tracked| - 1], q)
      + if Intersects(Placed(m, t.parts, t.pose).bounds, q) then [t.id] else []
  }

  lemma {:induction false} ScanOfTracked(m: Motion, instances: seq<Instance>, tracked: seq<Tracked>, q: Box)
    requires AllTracked(m, instances, tracked)
    ensures Scan(LeavesOf(instances), q) == Overlapping(m, tracked, q)
  {
    if instances != [] {
      var n := |instances| - 1;
      assert IsTracked(m, instances[n], tracked[n]);
      assert LeavesOf(instances)[..n] == LeavesOf(instances[..n]);
      ScanOfTracked(m, instances[..n], tracked[..n], q);
    }
  }

  /**
   Once the dynamic tree is built and nothing dynamic was added since, a query answers with the ids of exactly those
   instances whose bounds at the pose given last intersect it, if no instance is invalid.
   */
  lemma QueriesFindTracked(m: Motion, ops: seq<Op>, q: Box)
    requires !AwaitsBuild(ops) && Buildable(LeavesOf(Run(m, ops).dynamics))
    ensures Query(Run(m, ops), q, false, true) == multiset(Overlapping(m, Dynamics(ops), q))
  {
    DirtyIffAwaitsBuild(m, ops);
    InstancesAreTracked(m, ops);
    ScanOfTracked(m, Run(m, ops).dynamics, Dynamics(ops), q);
    MovesAreSeen(ops, m, q);
  }
}
