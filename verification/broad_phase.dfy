/** The broad-phase index over a static and a dynamic tree, updated in place. */
module BroadPhases {
  import opened Prelude
  import opened BvhSpec
  import opened Bvh
  import opened Masks
  import opened BroadPhaseSpec

  class BroadPhase {
    const motion: Motion
    const staticTree: Tlas2
    const dynamicTree: Tlas2
    var statics: seq<Instance>
    var dynamics: seq<Instance>
    var states: seq<LeafState>
    var staticLookup: map<string, nat>
    var dynamicLookup: map<string, nat>
    var byEntity: map<nat, nat>
    var dirty: bool
    var nextEntityId: nat
    var masks: seq<CollisionMask>

    ghost function View(): Index
      reads this, staticTree, dynamicTree
    {
      Index(statics, dynamics, states, staticLookup, dynamicLookup, byEntity, dirty, nextEntityId,
            staticTree.leaves, dynamicTree.leaves)
    }

    ghost predicate Valid()
      reads this, staticTree, dynamicTree
    {
      Sound() && Coherent(motion, View())
    }

    ghost predicate Sound()
      reads this, staticTree, dynamicTree
    {
      staticTree != dynamicTree && staticTree.Valid() && dynamicTree.Valid()
    }

    constructor (motion: Motion)
      ensures Valid() && View() == Empty && masks == [] && this.motion == motion
      ensures fresh(staticTree) && fresh(dynamicTree)
    {
      this.motion := motion;
      staticTree := new Tlas2();
      dynamicTree := new Tlas2();
      statics, dynamics, states := [], [], [];
      staticLookup, dynamicLookup, byEntity := map[], map[], map[];
      dirty, nextEntityId, masks := true, 0, [];
      new;
      RunsAreCoherent(motion, []);
    }

    // ----- bounds -----

    /** `compute_bounds`, one part after the other. */
    method ComputeBounds(parts: seq<Part>, pose: Pose) returns (r: LeafState)
      ensures r == Placed(motion, parts, pose)
    {
      if parts == [] {
        return LeafState(pose, Box(pose.x, pose.y, pose.x, pose.y), 0.0, 0.0);
      }
      r := LeafState(pose, PartBox(motion, pose, parts[0]), parts[0].zMin, parts[0].zMax);
      for i := 1 to |parts|
        invariant r == Placed(motion, parts[..i], pose)
      {
        assert parts[..i + 1][..i] == parts[..i];
        r := LeafState(pose, Merge(r.bounds, PartBox(motion, pose, parts[i])),
                       Min(r.zMin, parts[i].zMin), Max(r.zMax, parts[i].zMax));
      }
      assert parts[..|parts|] == parts;
    }

    // ----- adding -----

    method AddInstance(a: NewInstance) returns (r: Result<(), BuildError>)
      requires Valid()
      modifies this`statics, this`dynamics, this`states, this`staticLookup, this`dynamicLookup, this`byEntity,
               this`dirty, this`nextEntityId
      ensures Valid() && View() == Add(old(View()), motion, a)
      ensures r == if a.model.None? then Err(MissingModel(a.name)) else Ok(())
    {
      AddKeeps(View(), motion, a);
      r := InitInstanceInfo(a);
    }

    method InitInstanceInfo(a: NewInstance) returns (r: Result<(), BuildError>)
      requires |states| == |dynamics|
      modifies this`statics, this`dynamics, this`states, this`staticLookup, this`dynamicLookup, this`byEntity,
               this`dirty, this`nextEntityId
      ensures |states| == |dynamics|
      ensures View() == Add(old(View()), motion, a)
      ensures r == if a.model.None? then Err(MissingModel(a.name)) else Ok(())
    {
      nextEntityId := NextId(nextEntityId, a.entityId);
      if a.model.None? { return Err(MissingModel(a.name)); }
      var state := ComputeBounds(a.model.value, a.pose);
      var inst := Instance(a.model.value, Leaf(state, a.entityId));
      if a.isStatic {
        var index := |statics|;
        statics := statics + [inst];
        staticLookup := staticLookup[a.name := index];
      } else {
        var index := |dynamics|;
        dynamics := dynamics + [inst];
        assert |states| < |dynamics|; // the other branch of the source never runs
        states := states + [inst.leaf.state];
        dynamicLookup := dynamicLookup[a.name := index];
        byEntity := byEntity[a.entityId := index];
        dirty := true;
      }
      return Ok(());
    }

    ghost predicate AddedUpTo(instances: seq<NewInstance>, i: nat)
      requires i <= |instances|
      reads this, staticTree, dynamicTree
    {
      View() == Run(motion, AddOps(instances[..i])) && |states| == |dynamics|
    }

    method AddNext(instances: seq<NewInstance>, i: nat) returns (added: Result<(), BuildError>)
      requires i < |instances| && AddedUpTo(instances, i)
      modifies this`statics, this`dynamics, this`states, this`staticLookup, this`dynamicLookup, this`byEntity,
               this`dirty, this`nextEntityId
      ensures added.Ok? <==> instances[i].model.Some?
      ensures added.Ok? ==> AddedUpTo(instances, i + 1)
      ensures added.Err? ==> added.error.MissingModel?
    {
      RunAddSnoc(motion, instances, i);
      added := InitInstanceInfo(instances[i]);
    }

    method AddAll(instances: seq<NewInstance>) returns (failure: Option<BuildError>)
      requires View() == Empty
      modifies this`statics, this`dynamics, this`states, this`staticLookup, this`dynamicLookup, this`byEntity,
               this`dirty, this`nextEntityId
      ensures failure.None? <==> AllHaveModels(instances)
      ensures failure.None? ==> View() == Run(motion, AddOps(instances))
      ensures failure.Some? ==> failure.value.MissingModel?
    {
      for i := 0 to |instances|
        invariant AddedUpTo(instances, i)
        invariant forall k :: 0 <= k < i ==> instances[k].model.Some?
      {
        var added := AddNext(instances, i);
        if added.Err? { return Some(added.error); }
      }
      assert instances[..|instances|] == instances;
      return None;
    }

    method SetMasks(masks: seq<CollisionMask>)
      requires Valid()
      modifies this`masks
      ensures Valid() && View() == old(View()) && this.masks == masks
    {
      this.masks := masks;
    }

    // ----- building -----

    method SynchronizeDynamicStates()
      modifies this`states
      ensures states == StatesOf(dynamics)
    {
      Resize(|dynamics|);
      for i := 0 to |dynamics|
        invariant |states| == |dynamics|
        invariant forall k :: 0 <= k < i ==> states[k] == dynamics[k].leaf.state
      {
        states := states[i := dynamics[i].leaf.state];
      }
    }

    method Resize(n: nat)
      modifies this`states
      ensures |states| == n && forall k :: 0 <= k < n && k < |old(states)| ==> states[k] == old(states)[k]
    {
      if n <= |states| {
        states := states[..n];
      } else {
        var none := LeafState(Pose(0.0, 0.0, 0.0), Box(0.0, 0.0, 0.0, 0.0), 0.0, 0.0);
        states := states + seq(n - |states|, _ => none);
      }
    }

    method FillStaticTree()
      requires Sound()
      modifies staticTree
      ensures Sound() && View() == RebuildStatics(old(View()))
    {
      if statics == [] {
        staticTree.Clear();
      } else {
        staticTree.Rebuild(LeavesOf(statics));
      }
    }

    method FillDynamicTree()
      requires Sound()
      modifies dynamicTree, this`states
      ensures Sound() && View().(dirty := false) == RebuildDynamics(old(View()))
      ensures dirty == old(dirty)
    {
      if dynamics == [] {
        dynamicTree.Clear();
        states := [];
      } else {
        dynamicTree.Rebuild(LeavesOf(dynamics));
        SynchronizeDynamicStates();
      }
    }

    method RebuildStaticTree()
      requires Valid()
      modifies staticTree
      ensures Valid() && View() == RebuildStatics(old(View()))
    {
      RebuildsKeep(View(), motion);
      FillStaticTree();
    }

    method RebuildDynamicTree()
      requires Valid()
      modifies dynamicTree, this`states, this`dirty
      ensures Valid() && View() == RebuildDynamics(old(View()))
    {
      RebuildsKeep(View(), motion);
      FillDynamicTree();
      dirty := false;
    }

    method BuildTrees()
      requires Valid()
      modifies staticTree, dynamicTree, this`states, this`dirty
      ensures Valid() && View() == Build(old(View()))
    {
      ApplyKeeps(View(), motion, BuildOp);
      BuildPair();
    }

    method BuildPair()
      requires Sound()
      modifies staticTree, dynamicTree, this`states, this`dirty
      ensures Sound() && View() == Build(old(View()))
    {
      staticTree.Rebuild(LeavesOf(statics));
      dynamicTree.Rebuild(LeavesOf(dynamics));
      dirty := false;
      SynchronizeDynamicStates();
    }

    // ----- moving -----

    /** An index and a model are always found for a known id, so the two early returns of the source never run. */
    method UpdateDynamics(id: nat, pose: Pose)
      requires Valid()
      modifies this`dynamics, this`states, dynamicTree
      ensures Valid() && View() == Move(old(View()), motion, id, pose)
    {
      MoveKeeps(View(), motion, id, pose);
      if id !in byEntity { return; }
      assert IsLast(dynamics, id, byEntity[id]);
      MoveKnown(id, pose);
    }

    method MoveKnown(id: nat, pose: Pose)
      requires Sound() && id in byEntity && byEntity[id] < |dynamics| == |states|
      modifies this`dynamics, this`states, dynamicTree
      ensures Sound() && View() == Move(old(View()), motion, id, pose)
    {
      var index := byEntity[id];
      var state := ComputeBounds(dynamics[index].parts, pose);
      dynamics := dynamics[index := dynamics[index].(leaf := dynamics[index].leaf.(state := state))];
      states := states[index := state];
      if !dirty {
        dynamicTree.UpdateLeaf(index, state);
      }
    }

    method RefitDynamics()
      requires Valid()
      modifies dynamicTree
      ensures Valid() && View() == old(View())
    {
      if dirty || states == [] { return; }
      ghost var leaves, nodes := dynamicTree.leaves, dynamicTree.nodes;
      dynamicTree.Refit(states);
      if |states| == |leaves| {
        RefitIsIdle(old(View()), motion);
        assert dynamicTree.leaves == leaves;
        UnmovedRefit(nodes, dynamicTree.nodes, leaves);
      }
    }

    // ----- asking -----

    method QueryEntityIds(q: Box, withStatics: bool, withDynamics: bool) returns (hits: seq<nat>)
      requires Valid()
      ensures multiset(hits) == Query(View(), q, withStatics, withDynamics)
    {
      hits := [];
      if withStatics && statics != [] {
        ExactEncloses(staticTree.nodes, staticTree.leaves);
        hits := staticTree.CollectOverlaps(q, hits);
      }
      if withDynamics && dynamics != [] {
        ExactEncloses(dynamicTree.nodes, dynamicTree.leaves);
        hits := dynamicTree.CollectOverlaps(q, hits);
      }
    }

    /** Static names win over dynamic ones. */
    method EntityId(name: string) returns (r: Option<nat>)
      requires Valid()
      ensures r == EntityOf(View(), name)
    {
      if name in staticLookup {
        var idx := staticLookup[name];
        if idx < |statics| { return Some(statics[idx].leaf.entityId); }
      }
      if name in dynamicLookup {
        var idx := dynamicLookup[name];
        if idx < |dynamics| { return Some(dynamics[idx].leaf.entityId); }
      }
      return None;
    }
  }

  ghost predicate AllHaveModels(instances: seq<NewInstance>)
  {
    forall i :: 0 <= i < |instances| ==> instances[i].model.Some?
  }

  /** The constructor of the source: every instance is added, then the masks are encoded; the first failure ends it. */
  method Create(motion: Motion, instances: seq<NewInstance>, filters: seq<Filter>)
    returns (r: Result<BroadPhase, BuildError>)
    ensures r.Ok? <==> AllHaveModels(instances) && |Names(filters)| <= 32
    ensures r.Ok? ==>
      && fresh(r.value) && r.value.Valid() && r.value.motion == motion
      && r.value.View() == Run(motion, AddOps(instances)) && Faithful(filters, r.value.masks)
    ensures r.Err? && AllHaveModels(instances) ==> r.error == TooManyCategories
    ensures r.Err? && !AllHaveModels(instances) ==> r.error.MissingModel?
  {
    var bp := new BroadPhase(motion);
    var failure := bp.AddAll(instances);
    if failure.Some? { return Err(failure.value); }
    RunsAreCoherent(motion, AddOps(instances));
    var masks := BuildCollisionMasks(filters);
    if masks.Err? { return Err(masks.error); }
    bp.SetMasks(masks.value);
    r := Ok(bp);
  }
}
