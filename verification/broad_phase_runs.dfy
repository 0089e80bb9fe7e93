/** What queries answer between builds. */
module BroadPhaseRuns {
  import opened Prelude
  import opened BvhSpec
  import opened BroadPhaseSpec

  lemma {:induction false} ScanConcat(a: seq<Leaf>, b: seq<Leaf>, q: Box)
    ensures Scan(a + b, q) == Scan(a, q) + Scan(b, q)
  {
    if b == [] {
      assert a + b == a;
    } else {
      var front := b[..|b| - 1];
      assert (a + b)[..|a + b| - 1] == a + front;
      ScanConcat(a, front, q);
    }
  }

  /** The static instances that were added after the last build. */
  function LateStatics(m: Motion, ops: seq<Op>): seq<Instance>
  {
    var statics := Run(m, ops).statics;
    if BuiltStatics(m, ops) <= |statics| then statics[BuiltStatics(m, ops)..] else []
  }

  function BuiltInstances(m: Motion, ops: seq<Op>): seq<Instance>
  {
    var statics := Run(m, ops).statics;
    if BuiltStatics(m, ops) <= |statics| then statics[..BuiltStatics(m, ops)] else statics
  }

  lemma StaticsSplit(m: Motion, ops: seq<Op>)
    ensures LeavesOf(Run(m, ops).statics) == LeavesOf(BuiltInstances(m, ops)) + LeavesOf(LateStatics(m, ops))
    ensures Run(m, ops).staticLeaves == TreeOf(BuiltInstances(m, ops))
  {
    RunsAreCoherent(m, ops);
    LeavesSplit(Run(m, ops).statics, BuiltStatics(m, ops));
  }

  lemma LeavesSplit(instances: seq<Instance>, n: nat)
    requires n <= |instances|
    ensures LeavesOf(instances) == LeavesOf(instances[..n]) + LeavesOf(instances[n..])
  {
  }

  /**
   In any run a static query answers like a scan of all static instances iff nothing added since the last build is
   to be found, and the instances of that build were all valid or none of them is to be found.
   */
  lemma StaticQueryIsScanIff(m: Motion, ops: seq<Op>, q: Box)
    ensures var all := Scan(LeavesOf(Run(m, ops).statics), q);
      var built := LeavesOf(BuiltInstances(m, ops)); var late := LeavesOf(LateStatics(m, ops));
      Query(Run(m, ops), q, true, false) == multiset(all)
      <==> Scan(late, q) == [] && (Buildable(built) || Scan(built, q) == [])
  {
    var built, late := LeavesOf(BuiltInstances(m, ops)), LeavesOf(LateStatics(m, ops));
    StaticsSplit(m, ops);
    ScanConcat(built, late, q);
    RunsAreCoherent(m, ops);
    NothingToFind(Run(m, ops), m);
    SizesAdd(Scan(built, q), Scan(late, q));
  }

  lemma SizesAdd(xs: seq<nat>, ys: seq<nat>)
    ensures multiset(xs + ys) == multiset(xs) <==> ys == []
    ensures multiset(xs + ys) == multiset{} <==> xs == [] && ys == []
  {
    assert |multiset(xs + ys)| == |xs + ys| && |multiset(xs)| == |xs|;
    assert ys == [] ==> xs + ys == xs;
  }

  // ----- until the next build -----

  function RunFrom(ix: Index, m: Motion, ops: seq<Op>): Index
  {
    if ops == [] then ix else Apply(RunFrom(ix, m, ops[..|ops| - 1]), m, ops[|ops| - 1])
  }

  /** The leaves of a dirty index stay as they are, whatever moves, until its dynamic tree is built. */
  lemma {:induction false} DirtyIsFrozen(ix: Index, m: Motion, ops: seq<Op>)
    requires ix.dirty && forall k :: 0 <= k < |ops| ==> !BuildsDynamics(ops[k])
    ensures var ix' := RunFrom(ix, m, ops);
      ix'.dirty && ix'.dynamicLeaves == ix.dynamicLeaves && |ix'.dynamics| >= |ix.dynamics|
  {
    if ops != [] {
      DirtyIsFrozen(ix, m, ops[..|ops| - 1]);
      DirtyStays(RunFrom(ix, m, ops[..|ops| - 1]), m, ops[|ops| - 1]);
    }
  }

  lemma DirtyStays(ix: Index, m: Motion, op: Op)
    requires ix.dirty && !BuildsDynamics(op)
    ensures var ix' := Apply(ix, m, op);
      ix'.dirty && ix'.dynamicLeaves == ix.dynamicLeaves && |ix'.dynamics| >= |ix.dynamics|
  {
  }

  /** The static tree changes in builds only. */
  lemma {:induction false} StaticsAreFrozen(ix: Index, m: Motion, ops: seq<Op>)
    requires forall k :: 0 <= k < |ops| ==> !BuildsStatics(ops[k])
    ensures var ix' := RunFrom(ix, m, ops); ix'.staticLeaves == ix.staticLeaves && |ix'.statics| >= |ix.statics|
  {
    if ops != [] {
      StaticsAreFrozen(ix, m, ops[..|ops| - 1]);
      StaticsStay(RunFrom(ix, m, ops[..|ops| - 1]), m, ops[|ops| - 1]);
    }
  }

  /**
   An added instance stays invisible until the next build of its tree. An added dynamic instance also hides every
   later move until then.
   */
  lemma AddedIsInvisibleUntilBuild(ix: Index, m: Motion, a: NewInstance, ops: seq<Op>, q: Box)
    requires Coherent(m, ix) && a.model.Some?
    ensures a.isStatic && (forall k :: 0 <= k < |ops| ==> !BuildsStatics(ops[k])) ==>
      Query(RunFrom(Add(ix, m, a), m, ops), q, true, false) == Query(ix, q, true, false)
    ensures !a.isStatic && (forall k :: 0 <= k < |ops| ==> !BuildsDynamics(ops[k])) ==>
      Query(RunFrom(Add(ix, m, a), m, ops), q, false, true) == Query(ix, q, false, true)
  {
    NothingToFind(ix, m);
    if a.isStatic && forall k :: 0 <= k < |ops| ==> !BuildsStatics(ops[k]) {
      StaticsAreFrozen(Add(ix, m, a), m, ops);
    }
    if !a.isStatic && forall k :: 0 <= k < |ops| ==> !BuildsDynamics(ops[k]) {
      DirtyIsFrozen(Add(ix, m, a), m, ops);
    }
  }

  // ----- one invalid instance -----

  /** With an invalid instance a clean index finds no dynamic instance at all. */
  lemma InvalidHidesAll(ix: Index, m: Motion, q: Box)
    requires Coherent(m, ix) && !ix.dirty && !Buildable(LeavesOf(ix.dynamics))
    ensures Query(ix, q, false, true) == multiset{}
  {
  }

  const Origin := Pose(0.0, 0.0, 0.0)

  const Visible := NewInstance("visible", Some([]), Origin, 1, false)

  /** One part whose heights are exchanged. */
  const Inverted :=
    NewInstance("inverted", Some([Part(Origin, Box(0.0, 0.0, 0.0, 0.0), 1.0, 0.0)]), Origin, 2, false)

  /** A run in which a valid instance at the origin cannot be found because of its neighbour. */
  lemma InvertedHeightHidesNeighbour(m: Motion)
    ensures var ix := Run(m, [AddOp(Visible), AddOp(Inverted), BuildOp]); var q := Box(0.0, 0.0, 0.0, 0.0);
      && !ix.dirty && 1 in Scan(LeavesOf(ix.dynamics), q)
      && Query(ix, q, false, true) == multiset{}
  {
    var ops := [AddOp(Visible), AddOp(Inverted), BuildOp];
    var ix1 := Add(Empty, m, Visible);
    var ix2 := Add(ix1, m, Inverted);
    assert ops[..2] == [AddOp(Visible), AddOp(Inverted)] && ops[..2][..1] == [AddOp(Visible)];
    assert [AddOp(Visible)][..0] == [];
    assert Run(m, ops[..2][..1]) == ix1 && Run(m, ops[..2]) == ix2 && Run(m, ops) == Build(ix2);
    var good, bad := MakeInstance(m, [], Origin, 1), MakeInstance(m, Inverted.model.value, Origin, 2);
    assert ix2.dynamics == [good, bad];
    var leaves := LeavesOf(ix2.dynamics);
    assert leaves == [good.leaf] + [bad.leaf];
    assert !ValidLeaf(leaves[1]);
    ScanConcat([good.leaf], [bad.leaf], Box(0.0, 0.0, 0.0, 0.0));
    assert [good.leaf][..0] == [];
    assert Scan([good.leaf], Box(0.0, 0.0, 0.0, 0.0)) == [1];
    assert Scan([], Box(0.0, 0.0, 0.0, 0.0)) == [];
  }
}
