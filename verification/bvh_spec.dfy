/** Boxes, BVH nodes stored in an index-linked vector, and what a traversal of them yields. */
module BvhSpec {

  datatype Box = Box(minX: real, minY: real, maxX: real, maxY: real)

  predicate Intersects(a: Box, b: Box)
  {
    a.minX <= b.maxX && a.maxX >= b.minX && a.minY <= b.maxY && a.maxY >= b.minY
  }

  predicate Contains(outer: Box, inner: Box)
  {
    inner.minX >= outer.minX && inner.minY >= outer.minY && inner.maxX <= outer.maxX && inner.maxY <= outer.maxY
  }

  predicate Proper(b: Box) { b.minX <= b.maxX && b.minY <= b.maxY }

  function Min(a: real, b: real): real { if b < a then b else a }

  function Max(a: real, b: real): real { if a < b then b else a }

  function Merge(a: Box, b: Box): (r: Box)
    ensures Contains(r, a) && Contains(r, b)
  {
    Box(Min(a.minX, b.minX), Min(a.minY, b.minY), Max(a.maxX, b.maxX), Max(a.maxY, b.maxY))
  }

  lemma MergeIsLeast(a: Box, b: Box, outer: Box)
    ensures Contains(outer, Merge(a, b)) <==> Contains(outer, a) && Contains(outer, b)
  {
  }

  datatype Pose = Pose(x: real, y: real, yaw: real)

  datatype LeafState = LeafState(pose: Pose, bounds: Box, zMin: real, zMax: real)

  datatype Leaf = Leaf(state: LeafState, entityId: nat)

  /** What a rebuild demands of an instance. */
  predicate ValidLeaf(l: Leaf)
  {
    Proper(l.state.bounds) && l.state.zMin <= l.state.zMax
  }

  const INVALID: int := -1

  datatype Node = Node(bounds: Box, left: int, right: int, parent: int, leaf: int) {
    predicate IsLeaf() { leaf != INVALID }
  }

  // ----- shape -----

  ghost predicate LinkAt(nodes: seq<Node>, lo: int, hi: int, i: int)
    requires 0 <= lo <= i < hi <= |nodes|
  {
    var n := nodes[i];
    && (n.IsLeaf() ==> n.left == n.right == INVALID)
    && (!n.IsLeaf() ==>
          && i < n.left < hi && i < n.right < hi && n.left != n.right
          && nodes[n.left].parent == i && nodes[n.right].parent == i)
    && (lo < i ==>
          lo <= n.parent < i && !nodes[n.parent].IsLeaf() && (nodes[n.parent].left == i || nodes[n.parent].right == i))
  }

  /** Nodes lo..hi form one tree, children after parents, rooted at lo, whose root has the given parent. */
  ghost predicate Linked(nodes: seq<Node>, lo: int, hi: int, parent: int)
  {
    && 0 <= lo < hi <= |nodes| && nodes[lo].parent == parent
    && forall i :: lo <= i < hi ==> LinkAt(nodes, lo, hi, i)
  }

  ghost predicate IsTree(nodes: seq<Node>)
  {
    Linked(nodes, 0, |nodes|, INVALID)
  }

  /** Same links, possibly other bounds. */
  ghost predicate SameLinks(a: Node, b: Node)
  {
    a.left == b.left && a.right == b.right && a.parent == b.parent && a.leaf == b.leaf
  }

  /** The leaf indices below node i, left to right. */
  function LeavesBelow(nodes: seq<Node>, i: int): seq<int>
    decreases |nodes| - i
  {
    if !(0 <= i < |nodes|) then []
    else if nodes[i].IsLeaf() then [nodes[i].leaf]
    else (if i < nodes[i].left then LeavesBelow(nodes, nodes[i].left) else [])
         + (if i < nodes[i].right then LeavesBelow(nodes, nodes[i].right) else [])
  }

  lemma {:induction false} LeavesBelowFrame(nodes: seq<Node>, nodes': seq<Node>, lo: int, hi: int, parent: int, i: int)
    requires Linked(nodes, lo, hi, parent) && hi <= |nodes'| && lo <= i < hi
    requires forall j :: lo <= j < hi ==> SameLinks(nodes[j], nodes'[j])
    ensures LeavesBelow(nodes', i) == LeavesBelow(nodes, i)
    decreases hi - i
  {
    assert SameLinks(nodes[i], nodes'[i]) && LinkAt(nodes, lo, hi, i);
    if !nodes[i].IsLeaf() {
      LeavesBelowFrame(nodes, nodes', lo, hi, parent, nodes[i].left);
      LeavesBelowFrame(nodes, nodes', lo, hi, parent, nodes[i].right);
    }
  }

  function Iota(n: nat): (r: seq<int>)
    ensures |r| == n && forall k :: 0 <= k < n ==> r[k] == k
  {
    if n == 0 then [] else Iota(n - 1) + [n - 1]
  }

  lemma {:induction false} IotaIsDistinct(n: nat)
    ensures forall k :: multiset(Iota(n))[k] == if 0 <= k < n then 1 else 0
  {
    if n > 0 {
      IotaIsDistinct(n - 1);
    }
  }

  // ----- bounds -----

  /** A node's box is its leaf's box, or the union of its children's boxes. */
  ghost predicate ExactAt(nodes: seq<Node>, leaves: seq<Leaf>, i: int)
    requires 0 <= i < |nodes|
  {
    if nodes[i].IsLeaf() then
      0 <= nodes[i].leaf < |leaves| && nodes[i].bounds == leaves[nodes[i].leaf].state.bounds
    else
      && 0 <= nodes[i].left < |nodes| && 0 <= nodes[i].right < |nodes|
      && nodes[i].bounds == Merge(nodes[nodes[i].left].bounds, nodes[nodes[i].right].bounds)
  }

  ghost predicate Exact(nodes: seq<Node>, leaves: seq<Leaf>)
  {
    forall i :: 0 <= i < |nodes| ==> ExactAt(nodes, leaves, i)
  }

  ghost predicate LeafBoxAt(nodes: seq<Node>, leaves: seq<Leaf>, i: int)
    requires 0 <= i < |nodes|
  {
    nodes[i].IsLeaf() ==> 0 <= nodes[i].leaf < |leaves| && nodes[i].bounds == leaves[nodes[i].leaf].state.bounds
  }

  /** Leaf nodes carry their leaf's box; nothing is said about the boxes above. */
  ghost predicate LeafBoxesOk(nodes: seq<Node>, leaves: seq<Leaf>)
  {
    forall i :: 0 <= i < |nodes| ==> LeafBoxAt(nodes, leaves, i)
  }

  ghost predicate EnclosesAt(nodes: seq<Node>, i: int)
    requires 0 <= i < |nodes|
  {
    !nodes[i].IsLeaf() ==>
      && 0 <= nodes[i].left < |nodes| && 0 <= nodes[i].right < |nodes|
      && Contains(nodes[i].bounds, nodes[nodes[i].left].bounds) && Contains(nodes[i].bounds, nodes[nodes[i].right].bounds)
  }

  /** Every parent box encloses its children's boxes. */
  ghost predicate Enclosing(nodes: seq<Node>)
  {
    forall i :: 0 <= i < |nodes| ==> EnclosesAt(nodes, i)
  }

  lemma ExactEncloses(nodes: seq<Node>, leaves: seq<Leaf>)
    requires Exact(nodes, leaves)
    ensures Enclosing(nodes) && LeafBoxesOk(nodes, leaves)
  {
    forall i | 0 <= i < |nodes| ensures EnclosesAt(nodes, i) && LeafBoxAt(nodes, leaves, i) {
      assert ExactAt(nodes, leaves, i);
    }
  }

  // ----- queries -----

  /** A linear scan: the entity ids of all leaves that intersect the query. */
  function Scan(leaves: seq<Leaf>, q: Box): seq<nat>
  {
    if leaves == [] then []
    else Scan(leaves[..|leaves| - 1], q)
         + if Intersects(leaves[|leaves| - 1].state.bounds, q) then [leaves[|leaves| - 1].entityId] else []
  }

  predicate HasPoint(b: Box, x: real, y: real)
  {
    b.minX <= x <= b.maxX && b.minY <= y <= b.maxY
  }

  /** Boxes intersect iff they share a point, be it on their edges. */
  lemma IntersectIffSharing(a: Box, b: Box)
    requires Proper(a) && Proper(b)
    ensures Intersects(a, b) <==> exists x, y :: HasPoint(a, x, y) && HasPoint(b, x, y)
  {
    if Intersects(a, b) {
      var x, y := Max(a.minX, b.minX), Max(a.minY, b.minY);
      assert HasPoint(a, x, y) && HasPoint(b, x, y);
    }
  }

  /** `at` lists, in increasing order, all leaves that intersect the query. */
  ghost predicate AreHits(leaves: seq<Leaf>, q: Box, at: seq<nat>)
  {
    && (forall k :: 0 <= k < |at| ==> at[k] < |leaves|)
    && (forall j, k :: 0 <= j < k < |at| ==> at[j] < at[k])
    && (forall i: nat :: i < |leaves| ==> (i in at <==> Intersects(leaves[i].state.bounds, q)))
  }

  ghost predicate AreIds(leaves: seq<Leaf>, at: seq<nat>, ids: seq<nat>)
  {
    |at| == |ids| && forall k :: 0 <= k < |at| ==> at[k] < |leaves| && ids[k] == leaves[at[k]].entityId
  }

  lemma HitsSnoc(leaves: seq<Leaf>, l: Leaf, q: Box, at: seq<nat>)
    requires AreHits(leaves, q, at)
    ensures AreHits(leaves + [l], q, if Intersects(l.state.bounds, q) then at + [|leaves|] else at)
  {
  }

  lemma IdsSnoc(leaves: seq<Leaf>, l: Leaf, at: seq<nat>, ids: seq<nat>)
    requires AreIds(leaves, at, ids)
    ensures AreIds(leaves + [l], at, ids) && AreIds(leaves + [l], at + [|leaves|], ids + [l.entityId])
  {
  }

  /** A scan reports exactly the leaves that intersect the query, each once, in order. */
  lemma {:induction false} ScanFindsAll(leaves: seq<Leaf>, q: Box) returns (at: seq<nat>)
    ensures AreHits(leaves, q, at) && AreIds(leaves, at, Scan(leaves, q))
  {
    at := [];
    if leaves != [] {
      var front, last := leaves[..|leaves| - 1], leaves[|leaves| - 1];
      at := ScanFindsAll(front, q);
      assert leaves == front + [last];
      HitsSnoc(front, last, q, at);
      IdsSnoc(front, last, at, Scan(front, q));
      if Intersects(last.state.bounds, q) {
        at := at + [|front|];
      }
    }
  }

  predicate IsHit(leaves: seq<Leaf>, k: int, q: Box)
  {
    0 <= k < |leaves| && Intersects(leaves[k].state.bounds, q)
  }

  function HitAt(leaves: seq<Leaf>, k: int, q: Box): multiset<nat>
  {
    if IsHit(leaves, k, q) then multiset{leaves[k].entityId} else multiset{}
  }

  /** The entity ids of those of the listed leaves that intersect the query. */
  function Hits(leaves: seq<Leaf>, ks: seq<int>, q: Box): multiset<nat>
  {
    if ks == [] then multiset{} else Hits(leaves, ks[..|ks| - 1], q) + HitAt(leaves, ks[|ks| - 1], q)
  }

  lemma {:induction false} HitsConcat(leaves: seq<Leaf>, xs: seq<int>, ys: seq<int>, q: Box)
    ensures Hits(leaves, xs + ys, q) == Hits(leaves, xs, q) + Hits(leaves, ys, q)
  {
    if ys == [] {
      assert xs + ys == xs;
    } else {
      var zs := ys[..|ys| - 1];
      assert (xs + ys)[..|xs + ys| - 1] == xs + zs;
      HitsConcat(leaves, xs, zs, q);
    }
  }

  lemma HitsOfOne(leaves: seq<Leaf>, k: int, q: Box)
    ensures Hits(leaves, [k], q) == HitAt(leaves, k, q)
  {
    assert [k][..0] == [];
  }

  /** Where k can be taken out of ys. */
  lemma SplitAt(ys: seq<int>, k: int) returns (a: seq<int>, b: seq<int>)
    requires k in ys
    ensures ys == a + ([k] + b)
    ensures multiset(ys) == multiset(a + b) + multiset{k}
  {
    var j :| 0 <= j < |ys| && ys[j] == k;
    a, b := ys[..j], ys[j + 1..];
    assert ys == a + ([k] + b);
  }

  lemma HitsSplit(leaves: seq<Leaf>, a: seq<int>, k: int, b: seq<int>, q: Box)
    ensures Hits(leaves, a + ([k] + b), q) == Hits(leaves, a + b, q) + HitAt(leaves, k, q)
  {
    HitsConcat(leaves, a, b, q);
    HitsConcat(leaves, a, [k] + b, q);
    HitsConcat(leaves, [k], b, q);
    HitsOfOne(leaves, k, q);
  }

  lemma LastOut(xs: seq<int>) returns (front: seq<int>, k: int)
    requires xs != []
    ensures xs == front + [k] && front == xs[..|xs| - 1] && k == xs[|xs| - 1] && k in multiset(xs)
    ensures multiset(xs) == multiset(front) + multiset{k}
  {
    front, k := xs[..|xs| - 1], xs[|xs| - 1];
    assert xs == front + [k];
  }

  /** Hits depend on which leaves are listed, not on their order. */
  lemma {:induction false} HitsPermute(leaves: seq<Leaf>, xs: seq<int>, ys: seq<int>, q: Box)
    requires multiset(xs) == multiset(ys)
    ensures Hits(leaves, xs, q) == Hits(leaves, ys, q)
    decreases |xs|
  {
    if xs == [] {
      assert |multiset(ys)| == |ys|;
    } else {
      var front, k := LastOut(xs);
      var a, b := SplitAt(ys, k);
      assert multiset(front) + multiset{k} - multiset{k} == multiset(front);
      assert multiset(a + b) + multiset{k} - multiset{k} == multiset(a + b);
      HitsPermute(leaves, front, a + b, q);
      HitsSplit(leaves, a, k, b, q);
    }
  }

  lemma {:induction false} HitsOfAll(leaves: seq<Leaf>, n: nat, q: Box)
    requires n <= |leaves|
    ensures Hits(leaves, Iota(n), q) == multiset(Scan(leaves[..n], q))
  {
    if n > 0 {
      HitsOfAll(leaves, n - 1, q);
      ScanSnoc(leaves, n, q);
      assert Iota(n)[..n - 1] == Iota(n - 1);
    }
  }

  lemma ScanSnoc(leaves: seq<Leaf>, n: nat, q: Box)
    requires 0 < n <= |leaves|
    ensures multiset(Scan(leaves[..n], q)) == multiset(Scan(leaves[..n - 1], q)) + HitAt(leaves, n - 1, q)
  {
    assert leaves[..n][..n - 1] == leaves[..n - 1];
  }

  /** Listing every leaf once, in any order, gives the hits of a linear scan. */
  lemma AllHits(leaves: seq<Leaf>, ks: seq<int>, q: Box)
    requires multiset(ks) == multiset(Iota(|leaves|))
    ensures Hits(leaves, ks, q) == multiset(Scan(leaves, q))
  {
    HitsPermute(leaves, ks, Iota(|leaves|), q);
    HitsOfAll(leaves, |leaves|, q);
    assert leaves[..|leaves|] == leaves;
  }

  /** What a pruned traversal from node i reports. */
  function Pruned(nodes: seq<Node>, leaves: seq<Leaf>, i: int, q: Box): multiset<nat>
    decreases |nodes| - i
  {
    if !(0 <= i < |nodes|) || !Intersects(nodes[i].bounds, q) then multiset{}
    else if nodes[i].IsLeaf() then
      if 0 <= nodes[i].leaf < |leaves| then multiset{leaves[nodes[i].leaf].entityId} else multiset{}
    else
      (if i < nodes[i].left then Pruned(nodes, leaves, nodes[i].left, q) else multiset{})
      + (if i < nodes[i].right then Pruned(nodes, leaves, nodes[i].right, q) else multiset{})
  }

  /** Soundness needs no enclosure: only intersecting leaves are reported, none more often than it is listed. */
  lemma {:induction false} PrunedIsSound(nodes: seq<Node>, leaves: seq<Leaf>, i: int, q: Box)
    requires IsTree(nodes) && LeafBoxesOk(nodes, leaves) && 0 <= i < |nodes|
    ensures Pruned(nodes, leaves, i, q) <= Hits(leaves, LeavesBelow(nodes, i), q)
    decreases |nodes| - i
  {
    assert LinkAt(nodes, 0, |nodes|, i) && LeafBoxAt(nodes, leaves, i);
    if nodes[i].IsLeaf() {
      HitsOfOne(leaves, nodes[i].leaf, q);
    } else {
      PrunedIsSound(nodes, leaves, nodes[i].left, q);
      PrunedIsSound(nodes, leaves, nodes[i].right, q);
      HitsConcat(leaves, LeavesBelow(nodes, nodes[i].left), LeavesBelow(nodes, nodes[i].right), q);
    }
  }

  lemma {:induction false} NodeContainsLeaves(nodes: seq<Node>, leaves: seq<Leaf>, i: int, k: int)
    requires IsTree(nodes) && LeafBoxesOk(nodes, leaves) && Enclosing(nodes) && 0 <= i < |nodes|
    requires k in LeavesBelow(nodes, i)
    ensures 0 <= k < |leaves| && Contains(nodes[i].bounds, leaves[k].state.bounds)
    decreases |nodes| - i
  {
    assert LinkAt(nodes, 0, |nodes|, i) && LeafBoxAt(nodes, leaves, i) && EnclosesAt(nodes, i);
    if !nodes[i].IsLeaf() {
      if k in LeavesBelow(nodes, nodes[i].left) {
        NodeContainsLeaves(nodes, leaves, nodes[i].left, k);
      } else {
        NodeContainsLeaves(nodes, leaves, nodes[i].right, k);
      }
    }
  }

  lemma {:induction false} NoHits(leaves: seq<Leaf>, ks: seq<int>, q: Box)
    requires forall k :: k in ks ==> !IsHit(leaves, k, q)
    ensures Hits(leaves, ks, q) == multiset{}
  {
    if ks != [] {
      NoHits(leaves, ks[..|ks| - 1], q);
    }
  }

  /** Node i's box contains the boxes of all leaves below it. */
  ghost predicate CoversAt(nodes: seq<Node>, leaves: seq<Leaf>, i: int)
    requires 0 <= i < |nodes|
  {
    InsideAll(nodes[i].bounds, leaves, LeavesBelow(nodes, i))
  }

  ghost predicate InsideAll(outer: Box, leaves: seq<Leaf>, ks: seq<int>)
  {
    forall k :: k in ks ==> 0 <= k < |leaves| && Contains(outer, leaves[k].state.bounds)
  }

  /** A traversal from node i finds exactly the intersecting leaves below it. */
  ghost predicate FindsAt(nodes: seq<Node>, leaves: seq<Leaf>, i: int, q: Box)
  {
    Pruned(nodes, leaves, i, q) == Hits(leaves, LeavesBelow(nodes, i), q)
  }

  lemma CoveredHits(nodes: seq<Node>, leaves: seq<Leaf>, i: int, q: Box)
    requires 0 <= i < |nodes| && CoversAt(nodes, leaves, i) && !Intersects(nodes[i].bounds, q)
    ensures Hits(leaves, LeavesBelow(nodes, i), q) == multiset{}
  {
    forall k | k in LeavesBelow(nodes, i) ensures !IsHit(leaves, k, q) {
    }
    NoHits(leaves, LeavesBelow(nodes, i), q);
  }

  /** When every box covers the leaves below it, a traversal misses nothing. */
  lemma {:induction false} CoveringIsComplete(nodes: seq<Node>, leaves: seq<Leaf>, i: int, q: Box)
    requires IsTree(nodes) && LeafBoxesOk(nodes, leaves) && 0 <= i < |nodes|
    requires forall j :: 0 <= j < |nodes| ==> CoversAt(nodes, leaves, j)
    ensures FindsAt(nodes, leaves, i, q)
    decreases |nodes| - i
  {
    assert LinkAt(nodes, 0, |nodes|, i) && LeafBoxAt(nodes, leaves, i) && CoversAt(nodes, leaves, i);
    if !Intersects(nodes[i].bounds, q) {
      CoveredHits(nodes, leaves, i, q);
    } else if nodes[i].IsLeaf() {
      HitsOfOne(leaves, nodes[i].leaf, q);
    } else {
      CoveringIsComplete(nodes, leaves, nodes[i].left, q);
      CoveringIsComplete(nodes, leaves, nodes[i].right, q);
      HitsConcat(leaves, LeavesBelow(nodes, nodes[i].left), LeavesBelow(nodes, nodes[i].right), q);
    }
  }

  /** With enclosing boxes the traversal reports exactly the intersecting leaves below its node. */
  lemma PrunedIsComplete(nodes: seq<Node>, leaves: seq<Leaf>, i: int, q: Box)
    requires IsTree(nodes) && LeafBoxesOk(nodes, leaves) && Enclosing(nodes) && 0 <= i < |nodes|
    ensures Pruned(nodes, leaves, i, q) == Hits(leaves, LeavesBelow(nodes, i), q)
  {
    forall j | 0 <= j < |nodes| ensures CoversAt(nodes, leaves, j) {
      forall k | k in LeavesBelow(nodes, j) ensures 0 <= k < |leaves| && Contains(nodes[j].bounds, leaves[k].state.bounds) {
        NodeContainsLeaves(nodes, leaves, j, k);
      }
    }
    CoveringIsComplete(nodes, leaves, i, q);
  }

  // ----- the explicit stack -----

  function Size(nodes: seq<Node>, i: int): nat
    decreases |nodes| - i
  {
    if !(0 <= i < |nodes|) || nodes[i].IsLeaf() then 1
    else 1 + (if i < nodes[i].left then Size(nodes, nodes[i].left) else 0)
           + (if i < nodes[i].right then Size(nodes, nodes[i].right) else 0)
  }

  function StackSize(nodes: seq<Node>, stack: seq<int>): nat
  {
    if stack == [] then 0 else StackSize(nodes, stack[..|stack| - 1]) + Size(nodes, stack[|stack| - 1])
  }

  function StackHits(nodes: seq<Node>, leaves: seq<Leaf>, stack: seq<int>, q: Box): multiset<nat>
  {
    if stack == [] then multiset{}
    else StackHits(nodes, leaves, stack[..|stack| - 1], q) + Pruned(nodes, leaves, stack[|stack| - 1], q)
  }
}
