/** The broad-phase index as a value: what each operation does to it, and what every run of operations keeps. */
module BroadPhaseSpec {
  import opened Prelude
  import opened BvhSpec

  /** Pose composition and point transformation. Their formulas do not matter here. */
  datatype Motion = Motion(compose: (Pose, Pose) -> Pose, point: (Pose, real, real) -> (real, real))

  datatype Part = Part(rel: Pose, local: Box, zMin: real, zMax: real)

  // ----- bounds -----

  function Expand(b: Box, p: (real, real)): Box
  {
    Merge(b, PointBox(p))
  }

  /** `AABB2::transform`: the box around the four moved corners. */
  function Transform(m: Motion, pose: Pose, b: Box): (r: Box)
    ensures Proper(r)
  {
    var c00 := m.point(pose, b.minX, b.minY);
    Expand(Expand(Expand(Box(c00.0, c00.1, c00.0, c00.1),
                         m.point(pose, b.maxX, b.minY)), m.point(pose, b.minX, b.maxY)), m.point(pose, b.maxX, b.maxY))
  }

  function PartBox(m: Motion, pose: Pose, part: Part): Box
  {
    Transform(m, m.compose(pose, part.rel), part.local)
  }

  /** What `compute_bounds` gives for a model at a pose. */
  function Placed(m: Motion, parts: seq<Part>, pose: Pose): (r: LeafState)
    ensures r.pose == pose && Proper(r.bounds)
  {
    if parts == [] then LeafState(pose, Box(pose.x, pose.y, pose.x, pose.y), 0.0, 0.0)
    else
      var last := parts[|parts| - 1];
      if |parts| == 1 then LeafState(pose, PartBox(m, pose, last), last.zMin, last.zMax)
      else
        var front := Placed(m, parts[..|parts| - 1], pose);
        LeafState(pose, Merge(front.bounds, PartBox(m, pose, last)), Min(front.zMin, last.zMin), Max(front.zMax, last.zMax))
  }

  function PointBox(p: (real, real)): Box
  {
    Box(p.0, p.1, p.0, p.1)
  }

  /** The moved box contains the four moved corners, and every box that does so contains it. */
  lemma TransformIsLeast(m: Motion, pose: Pose, b: Box, outer: Box)
    ensures Contains(outer, Transform(m, pose, b)) <==>
      && Contains(outer, PointBox(m.point(pose, b.minX, b.minY))) && Contains(outer, PointBox(m.point(pose, b.maxX, b.minY)))
      && Contains(outer, PointBox(m.point(pose, b.minX, b.maxY))) && Contains(outer, PointBox(m.point(pose, b.maxX, b.maxY)))
  {
    var c00, c10 := m.point(pose, b.minX, b.minY), m.point(pose, b.maxX, b.minY);
    var c01, c11 := m.point(pose, b.minX, b.maxY), m.point(pose, b.maxX, b.maxY);
    var two := Merge(PointBox(c00), PointBox(c10));
    MergeIsLeast(PointBox(c00), PointBox(c10), outer);
    MergeIsLeast(two, PointBox(c01), outer);
    MergeIsLeast(Merge(two, PointBox(c01)), PointBox(c11), outer);
  }

  /** The bounds contain every part, and every box that does so contains the bounds. */
  lemma {:induction false} PlacedIsLeast(m: Motion, parts: seq<Part>, pose: Pose, outer: Box)
    requires parts != []
    ensures Contains(outer, Placed(m, parts, pose).bounds)
            <==> forall i :: 0 <= i < |parts| ==> Contains(outer, PartBox(m, pose, parts[i]))
  {
    var n := |parts| - 1;
    if n > 0 {
      PlacedIsLeast(m, parts[..n], pose, outer);
      MergeIsLeast(Placed(m, parts[..n], pose).bounds, PartBox(m, pose, parts[n]), outer);
    }
  }

  /** The box contains the four corners of the part's local box, carried first by the part's and then by the model's pose. */
  ghost predicate HasCorners(outer: Box, m: Motion, pose: Pose, part: Part)
  {
    forall x, y :: x in {part.local.minX, part.local.maxX} && y in {part.local.minY, part.local.maxY} ==>
      var p := m.point(m.compose(pose, part.rel), x, y); HasPoint(outer, p.0, p.1)
  }

  lemma PartBoxHasCorners(m: Motion, pose: Pose, part: Part, outer: Box)
    ensures Contains(outer, PartBox(m, pose, part)) <==> HasCorners(outer, m, pose, part)
  {
    TransformIsLeast(m, m.compose(pose, part.rel), part.local, outer);
  }

  /** A model's bounds are the least box that has all corners of all its parts. */
  lemma PlacedBoundsCorners(m: Motion, parts: seq<Part>, pose: Pose, outer: Box)
    requires parts != []
    ensures Contains(outer, Placed(m, parts, pose).bounds)
            <==> forall i :: 0 <= i < |parts| ==> HasCorners(outer, m, pose, parts[i])
  {
    PlacedIsLeast(m, parts, pose, outer);
    forall i | 0 <= i < |parts| ensures Contains(outer, PartBox(m, pose, parts[i])) <==> HasCorners(outer, m, pose, parts[i]) {
      PartBoxHasCorners(m, pose, parts[i], outer);
    }
  }

  /** A model without parts is a point at its pose, of no height. */
  lemma PlacedWithoutParts(m: Motion, pose: Pose)
    ensures Placed(m, [], pose) == LeafState(pose, Box(pose.x, pose.y, pose.x, pose.y), 0.0, 0.0)
  {
  }

  ghost predicate AllStartAbove(parts: seq<Part>, z: real)
  {
    forall i :: 0 <= i < |parts| ==> z <= parts[i].zMin
  }

  ghost predicate AllEndBelow(parts: seq<Part>, z: real)
  {
    forall i :: 0 <= i < |parts| ==> parts[i].zMax <= z
  }

  lemma PartsSnoc(parts: seq<Part>, z: real)
    requires parts != []
    ensures var n := |parts| - 1;
      && (AllStartAbove(parts, z) <==> AllStartAbove(parts[..n], z) && z <= parts[n].zMin)
      && (AllEndBelow(parts, z) <==> AllEndBelow(parts[..n], z) && parts[n].zMax <= z)
  {
    assert parts == parts[..|parts| - 1] + [parts[|parts| - 1]];
  }

  /** The height range is the least one that spans the ranges of all parts. */
  lemma {:induction false} HeightIsLeast(m: Motion, parts: seq<Part>, pose: Pose, z: real)
    requires parts != []
    ensures z <= Placed(m, parts, pose).zMin <==> AllStartAbove(parts, z)
    ensures Placed(m, parts, pose).zMax <= z <==> AllEndBelow(parts, z)
  {
    PartsSnoc(parts, z);
    if |parts| > 1 {
      HeightIsLeast(m, parts[..|parts| - 1], pose, z);
    }
  }

  /** A placed model counts as valid iff it has no parts or some part starts no higher than some part ends. */
  lemma PlacedIsValidIff(m: Motion, parts: seq<Part>, pose: Pose, id: nat)
    ensures ValidLeaf(Leaf(Placed(m, parts, pose), id))
            <==> parts == [] || exists i, j :: 0 <= i < |parts| && 0 <= j < |parts| && parts[i].zMin <= parts[j].zMax
  {
    if parts != [] {
      var placed := Placed(m, parts, pose);
      var i, j := HeightIsReached(m, parts, pose);
      HeightIsLeast(m, parts, pose, placed.zMin);
      HeightIsLeast(m, parts, pose, placed.zMax);
    }
  }

  lemma {:induction false} HeightIsReached(m: Motion, parts: seq<Part>, pose: Pose) returns (i: nat, j: nat)
    requires parts != []
    ensures i < |parts| && parts[i].zMin == Placed(m, parts, pose).zMin
    ensures j < |parts| && parts[j].zMax == Placed(m, parts, pose).zMax
  {
    var n := |parts| - 1;
    i, j := n, n;
    if n > 0 {
      var front := Placed(m, parts[..n], pose);
      var i', j' := HeightIsReached(m, parts[..n], pose);
      if front.zMin <= parts[n].zMin { i := i'; }
      if front.zMax >= parts[n].zMax { j := j'; }
    }
  }

  /** The height range does not depend on the pose. */
  lemma {:induction false} HeightIgnoresPose(m: Motion, parts: seq<Part>, pose: Pose, pose': Pose)
    ensures Placed(m, parts, pose).zMin == Placed(m, parts, pose').zMin
    ensures Placed(m, parts, pose).zMax == Placed(m, parts, pose').zMax
  {
    if |parts| > 1 {
      HeightIgnoresPose(m, parts[..|parts| - 1], pose, pose');
    }
  }

  // ----- the index -----

  /** What the caller adds; the model may be missing. */
  datatype NewInstance = NewInstance(name: string, model: Option<seq<Part>>, pose: Pose, entityId: nat, isStatic: bool)

  datatype Instance = Instance(parts: seq<Part>, leaf: Leaf)

  /** `staticLeaves` and `dynamicLeaves` are the leaves of the two trees. */
  datatype Index = Index(
    statics: seq<Instance>,
    dynamics: seq<Instance>,
    states: seq<LeafState>,
    staticLookup: map<string, nat>,
    dynamicLookup: map<string, nat>,
    byEntity: map<nat, nat>,
    dirty: bool,
    nextEntityId: nat,
    staticLeaves: seq<Leaf>,
    dynamicLeaves: seq<Leaf>)

  const Empty := Index([], [], [], map[], map[], map[], true, 0, [], [])

  predicate Buildable(leaves: seq<Leaf>)
  {
    forall k :: 0 <= k < |leaves| ==> ValidLeaf(leaves[k])
  }

  function LeavesOf(instances: seq<Instance>): (r: seq<Leaf>)
    ensures |r| == |instances| && forall k :: 0 <= k < |r| ==> r[k] == instances[k].leaf
  {
    seq(|instances|, k requires 0 <= k < |instances| => instances[k].leaf)
  }

  function StatesOf(instances: seq<Instance>): (r: seq<LeafState>)
    ensures |r| == |instances| && forall k :: 0 <= k < |r| ==> r[k] == instances[k].leaf.state
  {
    seq(|instances|, k requires 0 <= k < |instances| => instances[k].leaf.state)
  }

  /** One invalid instance and the whole tree is left empty. */
  function TreeOf(instances: seq<Instance>): seq<Leaf>
  {
    if Buildable(LeavesOf(instances)) then LeavesOf(instances) else []
  }

  const WIDTH := 0x1_0000_0000

  function NextId(next: nat, id: nat): nat
  {
    if (id + 1) % WIDTH > next then (id + 1) % WIDTH else next
  }

  function MakeInstance(m: Motion, parts: seq<Part>, pose: Pose, id: nat): Instance
  {
    Instance(parts, Leaf(Placed(m, parts, pose), id))
  }

  function AddStatic(ix: Index, name: string, inst: Instance): Index
  {
    ix.(statics := ix.statics + [inst], staticLookup := ix.staticLookup[name := |ix.statics|])
  }

  function AddDynamic(ix: Index, name: string, inst: Instance): Index
  {
    ix.(dynamics := ix.dynamics + [inst],
        states := ix.states + [inst.leaf.state],
        dynamicLookup := ix.dynamicLookup[name := |ix.dynamics|],
        byEntity := ix.byEntity[inst.leaf.entityId := |ix.dynamics|],
        dirty := true)
  }

  function Add(ix: Index, m: Motion, a: NewInstance): Index
  {
    var next := ix.(nextEntityId := NextId(ix.nextEntityId, a.entityId));
    if a.model.None? then next
    else
      var inst := MakeInstance(m, a.model.value, a.pose, a.entityId);
      if a.isStatic then AddStatic(next, a.name, inst) else AddDynamic(next, a.name, inst)
  }

  function RebuildStatics(ix: Index): Index
  {
    ix.(staticLeaves := TreeOf(ix.statics))
  }

  function RebuildDynamics(ix: Index): Index
  {
    ix.(dynamicLeaves := TreeOf(ix.dynamics), states := StatesOf(ix.dynamics), dirty := false)
  }

  function Build(ix: Index): Index
  {
    RebuildDynamics(RebuildStatics(ix))
  }

  function SetState(leaves: seq<Leaf>, k: nat, state: LeafState): seq<Leaf>
  {
    if k < |leaves| then leaves[k := leaves[k].(state := state)] else leaves
  }

  function MoveInstance(inst: Instance, m: Motion, pose: Pose): Instance
  {
    inst.(leaf := inst.leaf.(state := Placed(m, inst.parts, pose)))
  }

  function Move(ix: Index, m: Motion, id: nat, pose: Pose): Index
  {
    if id !in ix.byEntity || ix.byEntity[id] >= |ix.dynamics| || ix.byEntity[id] >= |ix.states| then ix
    else
      var k := ix.byEntity[id];
      var inst := MoveInstance(ix.dynamics[k], m, pose);
      ix.(dynamics := ix.dynamics[k := inst],
          states := ix.states[k := inst.leaf.state],
          dynamicLeaves := if ix.dirty then ix.dynamicLeaves else SetState(ix.dynamicLeaves, k, inst.leaf.state))
  }

  function Refit(ix: Index): Index
  {
    if ix.dirty || |ix.states| != |ix.dynamicLeaves| then ix
    else
      ix.(dynamicLeaves :=
        seq(|ix.states|, k requires 0 <= k < |ix.states| => ix.dynamicLeaves[k].(state := ix.states[k])))
  }

  function EntityOf(ix: Index, name: string): Option<nat>
  {
    if name in ix.staticLookup && ix.staticLookup[name] < |ix.statics| then
      Some(ix.statics[ix.staticLookup[name]].leaf.entityId)
    else if name in ix.dynamicLookup && ix.dynamicLookup[name] < |ix.dynamics| then
      Some(ix.dynamics[ix.dynamicLookup[name]].leaf.entityId)
    else None
  }

  /** The ids a query reports, as far as their order does not matter. */
  function Query(ix: Index, q: Box, withStatics: bool, withDynamics: bool): multiset<nat>
  {
    (if withStatics && ix.statics != [] then multiset(Scan(ix.staticLeaves, q)) else multiset{})
    + if withDynamics && ix.dynamics != [] then multiset(Scan(ix.dynamicLeaves, q)) else multiset{}
  }

  // ----- runs -----

  datatype Op =
    | AddOp(added: NewInstance)
    | BuildOp
    | RebuildStaticsOp
    | RebuildDynamicsOp
    | MoveOp(id: nat, pose: Pose)
    | RefitOp

  function Apply(ix: Index, m: Motion, op: Op): Index
  {
    match op
    case AddOp(a) => Add(ix, m, a)
    case BuildOp => Build(ix)
    case RebuildStaticsOp => RebuildStatics(ix)
    case RebuildDynamicsOp => RebuildDynamics(ix)
    case MoveOp(id, pose) => Move(ix, m, id, pose)
    case RefitOp => Refit(ix)
  }

  function Run(m: Motion, ops: seq<Op>): Index
  {
    if ops == [] then Empty else Apply(Run(m, ops[..|ops| - 1]), m, ops[|ops| - 1])
  }

  /** k is the last instance with this id. */
  ghost predicate IsLast(instances: seq<Instance>, id: nat, k: nat)
  {
    && k < |instances| && instances[k].leaf.entityId == id
    && forall j :: k < j < |instances| ==> instances[j].leaf.entityId != id
  }

  ghost predicate HasEntity(instances: seq<Instance>, id: nat)
  {
    exists k :: 0 <= k < |instances| && instances[k].leaf.entityId == id
  }

  ghost predicate Mirrored(ix: Index)
  {
    ix.states == StatesOf(ix.dynamics)
  }

  ghost predicate EntitiesFound(ix: Index)
  {
    && (forall id :: id in ix.byEntity ==> IsLast(ix.dynamics, id, ix.byEntity[id]))
    && (forall k :: 0 <= k < |ix.dynamics| ==> ix.dynamics[k].leaf.entityId in ix.byEntity)
  }

  ghost predicate IsPlaced(m: Motion, inst: Instance)
  {
    inst.leaf.state == Placed(m, inst.parts, inst.leaf.state.pose)
  }

  ghost predicate AllPlaced(m: Motion, instances: seq<Instance>)
  {
    forall k :: 0 <= k < |instances| ==> IsPlaced(m, instances[k])
  }

  ghost predicate LookupsInRange(ix: Index)
  {
    && (forall n :: n in ix.staticLookup ==> ix.staticLookup[n] < |ix.statics|)
    && (forall n :: n in ix.dynamicLookup ==> ix.dynamicLookup[n] < |ix.dynamics|)
  }

  ghost predicate StaticsBuilt(ix: Index, n: int)
  {
    0 <= n <= |ix.statics| && ix.staticLeaves == TreeOf(ix.statics[..n])
  }

  /** The trees hold what was there when they were built; a clean dynamic tree is up to date. */
  ghost predicate TreesOk(ix: Index)
  {
    && (exists n :: StaticsBuilt(ix, n))
    && |ix.dynamicLeaves| <= |ix.dynamics|
    && (!ix.dirty ==> ix.dynamicLeaves == TreeOf(ix.dynamics))
  }

  ghost predicate Coherent(m: Motion, ix: Index)
  {
    && Mirrored(ix) && EntitiesFound(ix) && LookupsInRange(ix) && TreesOk(ix)
    && AllPlaced(m, ix.statics) && AllPlaced(m, ix.dynamics)
  }

  lemma AddStaticKeeps(ix: Index, m: Motion, name: string, inst: Instance)
    requires Coherent(m, ix) && IsPlaced(m, inst)
    ensures Coherent(m, AddStatic(ix, name, inst))
  {
    var n :| StaticsBuilt(ix, n);
    var ix' := AddStatic(ix, name, inst);
    assert ix'.statics[..n] == ix.statics[..n];
    assert StaticsBuilt(ix', n);
    assert EntitiesFound(ix') && Mirrored(ix') && LookupsInRange(ix');
  }

  lemma AddDynamicKeeps(ix: Index, m: Motion, name: string, inst: Instance)
    requires Coherent(m, ix) && IsPlaced(m, inst)
    ensures Coherent(m, AddDynamic(ix, name, inst))
  {
    AddDynamicFinds(ix, name, inst);
    AddDynamicKeepsTrees(ix, name, inst);
    AddDynamicPlaces(ix, m, name, inst);
  }

  lemma AddDynamicKeepsTrees(ix: Index, name: string, inst: Instance)
    requires TreesOk(ix) && Mirrored(ix)
    ensures TreesOk(AddDynamic(ix, name, inst)) && Mirrored(AddDynamic(ix, name, inst))
  {
    var n :| StaticsBuilt(ix, n);
    var ix' := AddDynamic(ix, name, inst);
    assert StaticsBuilt(ix', n);
    assert ix'.states == StatesOf(ix'.dynamics);
  }

  lemma AddDynamicPlaces(ix: Index, m: Motion, name: string, inst: Instance)
    requires LookupsInRange(ix) && AllPlaced(m, ix.dynamics) && IsPlaced(m, inst)
    ensures LookupsInRange(AddDynamic(ix, name, inst)) && AllPlaced(m, AddDynamic(ix, name, inst).dynamics)
  {
  }

  lemma AddDynamicFinds(ix: Index, name: string, inst: Instance)
    requires EntitiesFound(ix)
    ensures EntitiesFound(AddDynamic(ix, name, inst))
  {
    var ix' := AddDynamic(ix, name, inst);
    forall id | id in ix'.byEntity ensures IsLast(ix'.dynamics, id, ix'.byEntity[id]) {
      if id != inst.leaf.entityId {
        assert IsLast(ix.dynamics, id, ix.byEntity[id]);
      }
    }
  }

  lemma NextIdKeeps(ix: Index, m: Motion, id: nat)
    requires Coherent(m, ix)
    ensures Coherent(m, ix.(nextEntityId := id))
  {
    var n :| StaticsBuilt(ix, n);
    assert StaticsBuilt(ix.(nextEntityId := id), n);
    assert EntitiesFound(ix.(nextEntityId := id));
  }

  lemma AddKeeps(ix: Index, m: Motion, a: NewInstance)
    requires Coherent(m, ix)
    ensures Coherent(m, Add(ix, m, a))
  {
    var next := ix.(nextEntityId := NextId(ix.nextEntityId, a.entityId));
    NextIdKeeps(ix, m, NextId(ix.nextEntityId, a.entityId));
    if a.model.Some? {
      var inst := MakeInstance(m, a.model.value, a.pose, a.entityId);
      AddStaticKeeps(next, m, a.name, inst);
      AddDynamicKeeps(next, m, a.name, inst);
    }
  }

  lemma RebuildsKeep(ix: Index, m: Motion)
    requires Coherent(m, ix)
    ensures Coherent(m, RebuildStatics(ix)) && Coherent(m, RebuildDynamics(ix))
  {
    assert ix.statics[..|ix.statics|] == ix.statics;
    assert StaticsBuilt(RebuildStatics(ix), |ix.statics|);
    var n :| StaticsBuilt(ix, n);
    assert StaticsBuilt(RebuildDynamics(ix), n);
  }

  /** Validity is decided by the height range, which a move does not change. */
  lemma ValidityIgnoresMoves(m: Motion, inst: Instance, pose: Pose)
    requires IsPlaced(m, inst)
    ensures ValidLeaf(MoveInstance(inst, m, pose).leaf) <==> ValidLeaf(inst.leaf)
  {
    HeightIgnoresPose(m, inst.parts, inst.leaf.state.pose, pose);
  }

  lemma TreeOfMoved(m: Motion, instances: seq<Instance>, k: nat, pose: Pose)
    requires k < |instances| && AllPlaced(m, instances)
    ensures TreeOf(instances[k := MoveInstance(instances[k], m, pose)])
            == SetState(TreeOf(instances), k, Placed(m, instances[k].parts, pose))
  {
    var moved := instances[k := MoveInstance(instances[k], m, pose)];
    assert IsPlaced(m, instances[k]);
    ValidityIgnoresMoves(m, instances[k], pose);
    assert Buildable(LeavesOf(moved)) <==> Buildable(LeavesOf(instances)) by {
      assert LeavesOf(moved) == LeavesOf(instances)[k := moved[k].leaf];
      if Buildable(LeavesOf(moved)) {
        forall j | 0 <= j < |instances| ensures ValidLeaf(LeavesOf(instances)[j]) {
          assert ValidLeaf(LeavesOf(moved)[j]);
        }
      }
    }
    assert LeavesOf(moved) == SetState(LeavesOf(instances), k, moved[k].leaf.state);
  }

  lemma MoveFinds(ix: Index, m: Motion, id: nat, pose: Pose)
    requires EntitiesFound(ix)
    ensures EntitiesFound(Move(ix, m, id, pose))
  {
    var ix' := Move(ix, m, id, pose);
    forall e | e in ix'.byEntity ensures IsLast(ix'.dynamics, e, ix'.byEntity[e]) {
      assert IsLast(ix.dynamics, e, ix.byEntity[e]);
    }
    assert forall j :: 0 <= j < |ix.dynamics| ==> ix'.dynamics[j].leaf.entityId == ix.dynamics[j].leaf.entityId;
  }

  lemma MovedArePlaced(m: Motion, instances: seq<Instance>, k: nat, pose: Pose)
    requires AllPlaced(m, instances) && k < |instances|
    ensures AllPlaced(m, instances[k := MoveInstance(instances[k], m, pose)])
  {
    var moved := instances[k := MoveInstance(instances[k], m, pose)];
    forall j | 0 <= j < |moved| ensures IsPlaced(m, moved[j]) {
      assert IsPlaced(m, instances[j]);
    }
  }

  lemma MoveKeeps(ix: Index, m: Motion, id: nat, pose: Pose)
    requires Coherent(m, ix)
    ensures Coherent(m, Move(ix, m, id, pose))
  {
    if id in ix.byEntity {
      assert IsLast(ix.dynamics, id, ix.byEntity[id]);
      var k := ix.byEntity[id];
      var ix' := Move(ix, m, id, pose);
      MoveFinds(ix, m, id, pose);
      MovedArePlaced(m, ix.dynamics, k, pose);
      TreeOfMoved(m, ix.dynamics, k, pose);
      assert ix'.states == StatesOf(ix'.dynamics);
      var n :| StaticsBuilt(ix, n);
      assert StaticsBuilt(ix', n);
    }
  }

  /** A refit of a coherent index changes nothing: the leaves already carry the states. */
  lemma RefitIsIdle(ix: Index, m: Motion)
    requires Coherent(m, ix)
    ensures Refit(ix) == ix
  {
    if !ix.dirty && |ix.states| == |ix.dynamicLeaves| {
      assert ix.dynamicLeaves == LeavesOf(ix.dynamics);
      assert Refit(ix).dynamicLeaves == ix.dynamicLeaves;
    }
  }

  lemma ApplyKeeps(ix: Index, m: Motion, op: Op)
    requires Coherent(m, ix)
    ensures Coherent(m, Apply(ix, m, op))
  {
    match op
    case AddOp(a) => AddKeeps(ix, m, a);
    case BuildOp => RebuildsKeep(ix, m); RebuildsKeep(RebuildStatics(ix), m);
    case RebuildStaticsOp => RebuildsKeep(ix, m);
    case RebuildDynamicsOp => RebuildsKeep(ix, m);
    case MoveOp(id, pose) => MoveKeeps(ix, m, id, pose);
    case RefitOp => RefitIsIdle(ix, m);
  }

  predicate BuildsStatics(op: Op) { op.BuildOp? || op.RebuildStaticsOp? }

  predicate BuildsDynamics(op: Op) { op.BuildOp? || op.RebuildDynamicsOp? }

  /** How many static instances there were at the last build of the static tree. */
  function BuiltStatics(m: Motion, ops: seq<Op>): nat
  {
    if ops == [] then 0
    else if BuildsStatics(ops[|ops| - 1]) then |Run(m, ops[..|ops| - 1]).statics|
    else BuiltStatics(m, ops[..|ops| - 1])
  }

  lemma ApplyKeepsStatics(ix: Index, m: Motion, op: Op, n: nat)
    requires StaticsBuilt(ix, n)
    ensures StaticsBuilt(Apply(ix, m, op), if BuildsStatics(op) then |ix.statics| else n)
  {
    StaticsStay(ix, m, op);
    var ix' := Apply(ix, m, op);
    assert ix'.statics[..n] == ix.statics[..n];
    assert ix'.statics[..|ix.statics|] == ix.statics;
  }

  /** Static instances are never removed, and their tree changes in builds only. */
  lemma StaticsStay(ix: Index, m: Motion, op: Op)
    ensures var ix' := Apply(ix, m, op);
      && ix.statics <= ix'.statics
      && ix'.staticLeaves == if BuildsStatics(op) then TreeOf(ix.statics) else ix.staticLeaves
  {
  }

  /** Every reachable index is coherent, and its static tree holds the instances of the last build. */
  lemma {:induction false} RunsAreCoherent(m: Motion, ops: seq<Op>)
    ensures Coherent(m, Run(m, ops))
    ensures StaticsBuilt(Run(m, ops), BuiltStatics(m, ops))
  {
    if ops == [] {
      assert StaticsBuilt(Empty, 0);
    } else {
      var before, op := ops[..|ops| - 1], ops[|ops| - 1];
      RunsAreCoherent(m, before);
      ApplyKeeps(Run(m, before), m, op);
      ApplyKeepsStatics(Run(m, before), m, op, BuiltStatics(m, before));
    }
  }

  // ----- what queries see -----

  /** A clean index answers like a scan of its dynamic instances iff all are valid or nothing is there to be found. */
  lemma CleanQueryIsScan(ix: Index, m: Motion, q: Box)
    requires Coherent(m, ix) && !ix.dirty
    ensures Query(ix, q, false, true) == multiset(Scan(LeavesOf(ix.dynamics), q))
            <==> Buildable(LeavesOf(ix.dynamics)) || Scan(LeavesOf(ix.dynamics), q) == []
  {
    if multiset(Scan(LeavesOf(ix.dynamics), q)) == multiset{} {
      EmptyIsNil(Scan(LeavesOf(ix.dynamics), q));
    }
  }

  lemma EmptyIsNil(xs: seq<nat>)
    requires multiset(xs) == multiset{}
    ensures xs == []
  {
    assert |multiset(xs)| == |xs|;
  }

  /** Whatever moved since, a query of a clean index finds every valid instance at its current place. */
  lemma MovesAreSeen(ops: seq<Op>, m: Motion, q: Box)
    requires var ix := Run(m, ops); !ix.dirty && Buildable(LeavesOf(ix.dynamics))
    ensures Query(Run(m, ops), q, false, true) == multiset(Scan(LeavesOf(Run(m, ops).dynamics), q))
  {
    RunsAreCoherent(m, ops);
    CleanQueryIsScan(Run(m, ops), m, q);
  }

  /** Right after a build both trees answer like scans, if all instances are valid. */
  lemma BuiltQueryIsScan(ix: Index, q: Box)
    requires Buildable(LeavesOf(ix.statics)) && Buildable(LeavesOf(ix.dynamics))
    ensures Query(Build(ix), q, true, true)
            == multiset(Scan(LeavesOf(ix.statics), q)) + multiset(Scan(LeavesOf(ix.dynamics), q))
  {
    assert ix.statics == [] ==> LeavesOf(ix.statics) == [];
    assert ix.dynamics == [] ==> LeavesOf(ix.dynamics) == [];
  }

  lemma NothingToFind(ix: Index, m: Motion)
    requires Coherent(m, ix)
    ensures ix.statics == [] ==> ix.staticLeaves == []
    ensures ix.dynamics == [] ==> ix.dynamicLeaves == []
  {
    var n :| StaticsBuilt(ix, n);
    assert ix.statics == [] ==> LeavesOf(ix.statics[..n]) == [];
  }

  /** An added instance, static or dynamic, is invisible to queries until the next build. */
  lemma AddedIsInvisible(ix: Index, m: Motion, a: NewInstance, q: Box, s: bool, d: bool)
    requires Coherent(m, ix)
    ensures Query(Add(ix, m, a), q, s, d) == Query(ix, q, s, d)
  {
    NothingToFind(ix, m);
    assert Add(ix, m, a).staticLeaves == ix.staticLeaves && Add(ix, m, a).dynamicLeaves == ix.dynamicLeaves;
    assert Scan([], q) == [];
  }

  /** A move touches the last instance with the id and no other; an unknown id touches nothing. */
  lemma MoveMovesOne(ix: Index, m: Motion, id: nat, pose: Pose)
    requires Coherent(m, ix)
    ensures !HasEntity(ix.dynamics, id) ==> Move(ix, m, id, pose) == ix
    ensures HasEntity(ix.dynamics, id) ==> exists k: nat ::
      && IsLast(ix.dynamics, id, k)
      && Move(ix, m, id, pose).dynamics == ix.dynamics[k := MakeInstance(m, ix.dynamics[k].parts, pose, id)]
    ensures Move(ix, m, id, pose).statics == ix.statics && Move(ix, m, id, pose).staticLeaves == ix.staticLeaves
  {
    if id in ix.byEntity {
      assert IsLast(ix.dynamics, id, ix.byEntity[id]);
    }
  }

  // ----- names -----

  function AddOps(instances: seq<NewInstance>): (r: seq<Op>)
    ensures |r| == |instances| && forall i :: 0 <= i < |r| ==> r[i] == AddOp(instances[i])
  {
    seq(|instances|, i requires 0 <= i < |instances| => AddOp(instances[i]))
  }

  lemma RunAddSnoc(m: Motion, instances: seq<NewInstance>, i: nat)
    requires i < |instances|
    ensures Run(m, AddOps(instances[..i + 1])) == Add(Run(m, AddOps(instances[..i])), m, instances[i])
  {
    assert AddOps(instances[..i + 1])[..i] == AddOps(instances[..i]);
  }

  /** The entity that was added last under this name, among the static or among the dynamic instances. */
  function LastAdded(ops: seq<Op>, name: string, isStatic: bool): Option<nat>
  {
    if ops == [] then None
    else
      var op := ops[|ops| - 1];
      if op.AddOp? && op.added.model.Some? && op.added.name == name && op.added.isStatic == isStatic then
        Some(op.added.entityId)
      else LastAdded(ops[..|ops| - 1], name, isStatic)
  }

  function Found(lookup: map<string, nat>, instances: seq<Instance>, name: string): Option<nat>
  {
    if name in lookup && lookup[name] < |instances| then Some(instances[lookup[name]].leaf.entityId) else None
  }

  lemma ApplyFinds(ix: Index, m: Motion, op: Op, name: string)
    requires LookupsInRange(ix)
    ensures var ix' := Apply(ix, m, op); var named := op.AddOp? && op.added.model.Some? && op.added.name == name;
      && Found(ix'.staticLookup, ix'.statics, name)
         == (if named && op.added.isStatic then Some(op.added.entityId) else Found(ix.staticLookup, ix.statics, name))
      && Found(ix'.dynamicLookup, ix'.dynamics, name)
         == (if named && !op.added.isStatic then Some(op.added.entityId) else Found(ix.dynamicLookup, ix.dynamics, name))
  {
  }

  /** After any run a name finds the static, or else the dynamic, entity added last under it. */
  lemma {:induction false} NamesFindTheLastAdded(m: Motion, ops: seq<Op>, name: string)
    ensures var ix := Run(m, ops);
      && Found(ix.staticLookup, ix.statics, name) == LastAdded(ops, name, true)
      && Found(ix.dynamicLookup, ix.dynamics, name) == LastAdded(ops, name, false)
      && EntityOf(ix, name)
         == (if LastAdded(ops, name, true).Some? then LastAdded(ops, name, true) else LastAdded(ops, name, false))
  {
    if ops != [] {
      var front := ops[..|ops| - 1];
      NamesFindTheLastAdded(m, front, name);
      RunsAreCoherent(m, front);
      ApplyFinds(Run(m, front), m, ops[|ops| - 1], name);
    }
  }
}
