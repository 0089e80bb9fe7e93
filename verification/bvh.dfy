/** The top-level BVH (`TLAS2`): built, updated, refitted and queried in place. */
module Bvh {
  import opened BvhSpec
  import opened RefitSpec
  import opened MedianSplits

  class Tlas2 {
    var nodes: seq<Node>
    var leaves: seq<Leaf>
    var leafNodes: seq<int>
    var root: int

    /** Empty, or a tree in which every leaf index occurs once and every box is exact. */
    ghost predicate Valid()
      reads this
    {
      Shaped() && Exact(nodes, leaves)
    }

    ghost predicate Shaped()
      reads this
    {
      if leaves == [] then nodes == [] && leafNodes == [] && root == INVALID
      else
        && root == 0 && IsTree(nodes) && Indexed(nodes, leafNodes, |leaves|)
        && multiset(LeavesBelow(nodes, 0)) == multiset(Iota(|leaves|))
    }

    constructor ()
      ensures Valid() && leaves == []
    {
      nodes, leaves, leafNodes, root := [], [], [], INVALID;
    }

    method Clear()
      modifies this
      ensures Valid() && leaves == []
    {
      nodes, leaves, leafNodes, root := [], [], [], INVALID;
    }

    // ----- build -----

    method AddLeafNode(k: int, parent: int) returns (idx: int)
      requires 0 <= k < |leaves| == |leafNodes|
      modifies this`nodes, this`leafNodes
      ensures idx == |old(nodes)| && |nodes| == idx + 1 && nodes[..idx] == old(nodes)
      ensures Built(nodes, leaves, idx, parent, [k]) && MedianSplit(nodes, leaves, idx, [k])
      ensures leafNodes == old(leafNodes)[k := idx] && IndexedFrom(nodes, leafNodes, idx, [k])
    {
      idx := |nodes|;
      nodes := nodes + [Node(leaves[k].state.bounds, INVALID, INVALID, parent, k)];
      leafNodes := leafNodes[k := idx];
      assert LinkAt(nodes, idx, idx + 1, idx) && ExactAt(nodes, leaves, idx);
      assert LeavesBelow(nodes, idx) == [k];
    }

    /** True when the x axis is the longer one of the box around the range. */
    method SplitsByX(range: seq<int>) returns (byX: bool)
      requires range != [] && forall k :: k in range ==> 0 <= k < |leaves|
      ensures byX == LongerX(RangeBox(leaves, range))
    {
      assert range[0] in range;
      var bounds := leaves[range[0]].state.bounds;
      for i := 1 to |range|
        invariant bounds == RangeBox(leaves, range[..i])
      {
        assert range[i] in range && range[..i + 1][..i] == range[..i];
        bounds := Merge(bounds, leaves[range[i]].state.bounds);
      }
      assert range[..|range|] == range;
      byX := bounds.maxX - bounds.minX > bounds.maxY - bounds.minY;
    }

    method Halve(range: seq<int>) returns (lower: seq<int>, upper: seq<int>)
      requires |range| > 1 && (forall k :: k in range ==> 0 <= k < |leaves|) && NoDuplicates(range)
      ensures IsHalving(leaves, range, lower, upper)
      ensures NoDuplicates(lower) && NoDuplicates(upper) && forall k :: k in lower ==> k !in upper
      ensures forall k :: k in range <==> k in lower || k in upper
    {
      var byX := SplitsByX(range);
      var mid := |range| / 2;
      var order := NthElement(range, mid, leaves, byX);
      lower, upper := order[..mid], order[mid..];
      assert order == lower + upper;
      HalvesAreDisjoint(range, lower, upper);
    }

    /** The recursion of `rebuild_tree`; `capacity` is what was reserved for the node vector. */
    method BuildRecursive(range: seq<int>, parent: int, ghost capacity: nat) returns (idx: int)
      requires range != [] && |leafNodes| == |leaves| && |nodes| + 2 * |range| - 1 <= capacity
      requires forall k :: k in range ==> 0 <= k < |leaves|
      requires NoDuplicates(range)
      modifies this`nodes, this`leafNodes
      ensures idx == |old(nodes)| && |nodes| == idx + 2 * |range| - 1 && nodes[..idx] == old(nodes)
      ensures Built(nodes, leaves, idx, parent, range) && MedianSplit(nodes, leaves, idx, range)
      ensures |leafNodes| == |leaves| && forall k :: 0 <= k < |leaves| && k !in range ==> leafNodes[k] == old(leafNodes)[k]
      ensures IndexedFrom(nodes, leafNodes, idx, range)
      decreases |range|, 2
    {
      assert |nodes| < capacity; // the capacity check of the source never fails
      assert range[0] in range;
      if |range| == 1 {
        assert range == [range[0]];
        idx := AddLeafNode(range[0], parent);
      } else {
        idx := BuildInner(range, parent, capacity);
      }
    }

    method BuildInner(range: seq<int>, parent: int, ghost capacity: nat) returns (idx: int)
      requires |range| > 1
      requires range != [] && |leafNodes| == |leaves| && |nodes| + 2 * |range| - 1 <= capacity
      requires forall k :: k in range ==> 0 <= k < |leaves|
      requires NoDuplicates(range)
      modifies this`nodes, this`leafNodes
      ensures idx == |old(nodes)| && |nodes| == idx + 2 * |range| - 1 && nodes[..idx] == old(nodes)
      ensures Built(nodes, leaves, idx, parent, range) && MedianSplit(nodes, leaves, idx, range)
      ensures |leafNodes| == |leaves| && forall k :: 0 <= k < |leaves| && k !in range ==> leafNodes[k] == old(leafNodes)[k]
      ensures IndexedFrom(nodes, leafNodes, idx, range)
      decreases |range|, 1
    {
      idx := |nodes|;
      nodes := nodes + [Node(Box(0.0, 0.0, 0.0, 0.0), INVALID, INVALID, parent, INVALID)];
      var lower, upper := Halve(range);
      var left, right := BuildChildren(lower, upper, idx, capacity);
      ghost var children := nodes;
      assert children[..idx] == children[..idx + 1][..idx] == old(nodes);
      nodes := nodes[idx := Node(Merge(nodes[left].bounds, nodes[right].bounds), left, right, parent, INVALID)];
      FinishInner(children, nodes, leaves, leafNodes, idx, parent, lower, upper, range);
    }

    method BuildChildren(lower: seq<int>, upper: seq<int>, idx: int, ghost capacity: nat) returns (left: int, right: int)
      requires lower != [] && upper != [] && |leafNodes| == |leaves| && idx == |nodes| - 1 && idx >= 0
      requires |nodes| + 2 * (|lower| + |upper|) - 2 <= capacity
      requires forall k :: k in lower || k in upper ==> 0 <= k < |leaves|
      requires NoDuplicates(lower) && NoDuplicates(upper) && forall k :: k in lower ==> k !in upper
      modifies this`nodes, this`leafNodes
      ensures left == idx + 1 && right == idx + 2 * |lower| && |nodes| == idx + 2 * (|lower| + |upper|) - 1
      ensures nodes[..idx + 1] == old(nodes)
      ensures Built(nodes, leaves, left, idx, lower) && Built(nodes, leaves, right, idx, upper)
      ensures MedianSplit(nodes, leaves, left, lower) && MedianSplit(nodes, leaves, right, upper)
      ensures |leafNodes| == |leaves|
      ensures forall k :: 0 <= k < |leaves| && k !in lower && k !in upper ==> leafNodes[k] == old(leafNodes)[k]
      ensures IndexedFrom(nodes, leafNodes, left, lower + upper)
      decreases |lower| + |upper|, 0
    {
      left := BuildRecursive(lower, idx, capacity);
      ghost var nodes1, leafNodes1 := nodes, leafNodes;
      right := BuildRecursive(upper, idx, capacity);
      BuiltFrame(nodes1, nodes, leaves, left, idx, lower);
      MedianFrame(nodes1, nodes, leaves, left, lower);
      IndexedJoin(nodes1, nodes, leafNodes1, leafNodes, left, lower, upper);
      assert nodes[..idx + 1] == nodes1[..idx + 1];
    }

    /** `rebuild_tree`: nothing is built when an instance is not valid. */
    method Rebuild(instances: seq<Leaf>)
      modifies this
      ensures Valid()
      ensures leaves == if forall k :: 0 <= k < |instances| ==> ValidLeaf(instances[k]) then instances else []
      ensures leaves != [] ==> |nodes| == 2 * |leaves| - 1 && MedianSplit(nodes, leaves, 0, Iota(|leaves|))
    {
      Clear();
      if instances == [] { return; }
      for i := 0 to |instances|
        invariant forall k :: 0 <= k < i ==> ValidLeaf(instances[k])
      {
        if !ValidLeaf(instances[i]) { return; }
      }
      leaves := instances;
      leafNodes := seq(|leaves|, _ => INVALID);
      IotaIsDistinct(|leaves|);
      root := BuildRecursive(Iota(|leaves|), INVALID, 2 * |leaves|);
      BuiltIsTree(nodes, leaves, leafNodes);
    }

    // ----- query -----

    /** `collect_overlaps`: append the entity ids a pruned traversal from the root reports. */
    method CollectOverlaps(query: Box, out: seq<nat>) returns (hits: seq<nat>)
      requires Shaped() && LeafBoxesOk(nodes, leaves)
      ensures out <= hits && multiset(hits) == multiset(out) + Pruned(nodes, leaves, root, query)
      ensures Valid() ==> multiset(hits) == multiset(out) + multiset(Scan(leaves, query))
    {
      if root == INVALID {
        hits := out;
      } else {
        hits := Traverse(nodes, leaves, root, query, out);
        if Valid() { TraversalIsScan(nodes, leaves, query); }
      }
    }

    // ----- updates -----

    method SetLeaf(k: int, state: LeafState)
      requires 0 <= k < |leaves|
      modifies this`leaves
      ensures leaves == old(leaves)[k := old(leaves)[k].(state := state)]
    {
      leaves := leaves[k := leaves[k].(state := state)];
    }

    method SetBounds(i: int, bounds: Box)
      requires 0 <= i < |nodes|
      modifies this`nodes
      ensures nodes == old(nodes)[i := old(nodes)[i].(bounds := bounds)]
    {
      nodes := nodes[i := nodes[i].(bounds := bounds)];
    }

    /** `update_leaf`: one leaf changes, and the boxes on its path to the root are recomputed bottom-up. */
    method UpdateLeaf(k: int, state: LeafState)
      requires Valid() && k >= 0
      modifies this
      ensures Valid()
      ensures leaves == if k < |old(leaves)| then old(leaves)[k := old(leaves)[k].(state := state)] else old(leaves)
    {
      if k >= |leaves| { return; }
      ghost var before := leaves;
      SetLeaf(k, state);
      LeafChangeIsLocal(nodes, before, leaves, leafNodes, k);
      RefitFromLeaf(k);
    }

    /** Only the leaf node may be inexact before; every box is exact afterwards. */
    method RefitFromLeaf(k: int)
      requires Shaped() && 0 <= k < |leaves|
      requires ExactBut(nodes, leaves, leafNodes[k])
      modifies this`nodes
      ensures Valid()
    {
      var i := leafNodes[k];
      ghost var before := nodes;
      SetBounds(i, leaves[k].state.bounds);
      BoundsKeepShape(before, nodes, leafNodes, |leaves|);
      LeafRewritten(before, nodes, leaves, i);
      var parent := nodes[i].parent;
      while parent != INVALID
        invariant parent == INVALID || 0 <= parent < |nodes|
        invariant Shaped() && ExactBut(nodes, leaves, parent)
        invariant parent != INVALID ==> !nodes[parent].IsLeaf()
        decreases parent
      {
        assert LinkAt(nodes, 0, |nodes|, parent);
        before := nodes;
        SetBounds(parent, Merge(nodes[nodes[parent].left].bounds, nodes[nodes[parent].right].bounds));
        BoundsKeepShape(before, nodes, leafNodes, |leaves|);
        InnerRewritten(before, nodes, leaves, parent);
        parent := nodes[parent].parent;
      }
    }

    // ----- refit -----

    /** Collect all inner nodes, walking up from each leaf until a collected node is met. */
    method CollectAncestors() returns (order: seq<int>)
      requires Shaped() && leaves != []
      ensures IsCollected(nodes, order)
    {
      order := [];
      var visited := seq(|nodes|, _ => false);
      MinLeavesInRange(nodes, leafNodes, |leaves|);
      for k := 0 to |leafNodes|
        invariant Collecting(nodes, order, visited, k, |nodes|)
      {
        order, visited := Climb(k, order, visited);
      }
    }

    method Climb(k: nat, order: seq<int>, visited: seq<bool>) returns (order': seq<int>, visited': seq<bool>)
      requires Shaped() && k < |leaves| && Collecting(nodes, order, visited, k, |nodes|)
      ensures Collecting(nodes, order', visited', k + 1, |nodes|)
    {
      order', visited' := order, visited;
      ghost var d := leafNodes[k];
      var parent := nodes[leafNodes[k]].parent;
      NothingAbove(nodes, leafNodes, |leaves|, k);
      LinkRoot(nodes, d);
      while parent != INVALID && !visited'[parent]
        invariant 0 <= d < |nodes| && parent == nodes[d].parent && MinLeaf(nodes, d) == k
        invariant parent == INVALID || 0 <= parent < d
        invariant Collecting(nodes, order', visited', k, d)
        decreases d
      {
        LinkUp(nodes, leafNodes, |leaves|, d);
        CollectOne(nodes, order', visited', k, d, parent);
        order', visited' := order' + [parent], visited'[parent := true];
        d := parent;
        LinkRoot(nodes, d);
        parent := nodes[parent].parent;
      }
      NothingBetween(nodes, leafNodes, |leaves|, d, k);
    }

    /**
     `refit`: leaf boxes first, then the collected ancestors from last to first. The result is described by
     Refitted; it is exact iff no lagging child needed its new box (RefitIsExactIff).
     */
    method Refit(states: seq<LeafState>)
      requires Shaped()
      modifies this
      ensures Shaped() && |nodes| == |old(nodes)|
      ensures |states| != |old(leaves)| ==> leaves == old(leaves) && nodes == old(nodes)
      ensures |states| == |old(leaves)| ==>
        && |leaves| == |states|
        && (forall k :: 0 <= k < |leaves| ==> leaves[k] == old(leaves)[k].(state := states[k]))
        && (forall i :: 0 <= i < |nodes| ==>
              IsTree(old(nodes)) && nodes[i] == old(nodes)[i].(bounds := Refitted(old(nodes), leaves, i)))
      ensures |states| == |old(leaves)| != 0 ==> IsRefit(old(nodes), nodes, leaves)
    {
      if |states| != |leaves| { return; }
      for k := 0 to |leaves|
        invariant |leaves| == |states| && nodes == old(nodes) && leafNodes == old(leafNodes) && root == old(root)
        invariant forall j :: 0 <= j < k ==> leaves[j] == old(leaves)[j].(state := states[j])
        invariant forall j :: k <= j < |leaves| ==> leaves[j] == old(leaves)[j]
      {
        SetLeaf(k, states[k]);
      }
      if root != INVALID {
        RefitInternal();
      }
    }

    method RefitInternal()
      requires Shaped() && leaves != []
      modifies this`nodes
      ensures Shaped() && |nodes| == |old(nodes)|
      ensures forall i :: 0 <= i < |nodes| ==> nodes[i] == old(nodes)[i].(bounds := Refitted(old(nodes), leaves, i))
    {
      ghost var before := nodes;
      WriteLeafBoxes();
      BoundsKeepShape(before, nodes, leafNodes, |leaves|);
      var order := CollectAncestors();
      SameOrder(before, nodes, order);
      StartsSettling(before, nodes, leaves, leafNodes, order);
      Recompute(before, order);
      BoundsKeepShape(before, nodes, leafNodes, |leaves|);
      AllSettled(before, nodes, leaves, order);
    }

    method WriteLeafBoxes()
      requires IsTree(nodes) && Indexed(nodes, leafNodes, |leaves|)
      modifies this`nodes
      ensures LeavesWritten(old(nodes), nodes, leaves, |leaves|)
    {
      for k := 0 to |leaves|
        invariant LeavesWritten(old(nodes), nodes, leaves, k)
      {
        SetBounds(leafNodes[k], leaves[k].state.bounds);
      }
    }

    method Recompute(ghost before: seq<Node>, order: seq<int>)
      requires IsTree(before) && Indexed(before, leafNodes, |leaves|) && IsCollected(before, order)
      requires Settling(before, nodes, leaves, order, |order|)
      modifies this`nodes
      ensures Settling(before, nodes, leaves, order, 0)
    {
      var p := |order|;
      while p > 0
        invariant 0 <= p <= |order| && Settling(before, nodes, leaves, order, p)
      {
        p := p - 1;
        SettleOne(before, nodes, leaves, leafNodes, order, p);
        var i := order[p];
        SetBounds(i, Merge(nodes[nodes[i].left].bounds, nodes[nodes[i].right].bounds));
      }
    }
  }

  // ----- query helpers -----

  /** The stack loop of `collect_overlaps`. It needs no enclosing boxes. */
  method Traverse(nodes: seq<Node>, leaves: seq<Leaf>, root: int, query: Box, out: seq<nat>) returns (hits: seq<nat>)
    requires IsTree(nodes) && LeafBoxesOk(nodes, leaves) && 0 <= root < |nodes|
    ensures out <= hits && multiset(hits) == multiset(out) + Pruned(nodes, leaves, root, query)
  {
    hits := out;
    ghost var total := multiset(out) + Pruned(nodes, leaves, root, query);
    var stack := [root];
    StackOfOne(nodes, leaves, root, query);
    while stack != []
      invariant OnTree(nodes, stack) && out <= hits && Pending(nodes, leaves, stack, query, hits, total)
      decreases StackSize(nodes, stack)
    {
      var i := stack[|stack| - 1];
      VisitKeeps(nodes, leaves, stack, query, hits, total);
      stack := stack[..|stack| - 1];
      if !Intersects(nodes[i].bounds, query) { continue; }
      if nodes[i].IsLeaf() {
        hits := hits + [leaves[nodes[i].leaf].entityId];
        continue;
      }
      if nodes[i].left != INVALID { stack := stack + [nodes[i].left]; }
      if nodes[i].right != INVALID { stack := stack + [nodes[i].right]; }
    }
  }

  /** Reported hits and those still to come from the stack make up the total. */
  ghost predicate Pending(nodes: seq<Node>, leaves: seq<Leaf>, stack: seq<int>, q: Box, hits: seq<nat>, total: multiset<nat>)
  {
    multiset(hits) + StackHits(nodes, leaves, stack, q) == total
  }

  ghost predicate OnTree(nodes: seq<Node>, stack: seq<int>)
  {
    forall j :: 0 <= j < |stack| ==> 0 <= stack[j] < |nodes|
  }

  lemma StackOfOne(nodes: seq<Node>, leaves: seq<Leaf>, i: int, q: Box)
    ensures StackHits(nodes, leaves, [i], q) == Pruned(nodes, leaves, i, q)
  {
    assert [i][..0] == [];
  }

  lemma StackPush(nodes: seq<Node>, leaves: seq<Leaf>, stack: seq<int>, i: int, q: Box)
    ensures StackHits(nodes, leaves, stack + [i], q) == StackHits(nodes, leaves, stack, q) + Pruned(nodes, leaves, i, q)
    ensures StackSize(nodes, stack + [i]) == StackSize(nodes, stack) + Size(nodes, i)
  {
    assert (stack + [i])[..|stack|] == stack;
  }

  /** What visiting the top of the stack does to the pending hits and to the work left. */
  lemma Visit(nodes: seq<Node>, leaves: seq<Leaf>, stack: seq<int>, q: Box)
    requires stack != [] && 0 <= stack[|stack| - 1] < |nodes|
    requires var n := nodes[stack[|stack| - 1]]; !n.IsLeaf() ==> stack[|stack| - 1] < n.left && stack[|stack| - 1] < n.right
    ensures var i := stack[|stack| - 1]; var front := stack[..|stack| - 1]; var n := nodes[i];
      && StackHits(nodes, leaves, stack, q) == StackHits(nodes, leaves, front, q) + Pruned(nodes, leaves, i, q)
      && StackSize(nodes, front) < StackSize(nodes, stack)
      && (Intersects(n.bounds, q) && !n.IsLeaf() ==>
            && StackHits(nodes, leaves, front + [n.left] + [n.right], q) == StackHits(nodes, leaves, stack, q)
            && StackSize(nodes, front + [n.left] + [n.right]) < StackSize(nodes, stack))
  {
    var i, front := stack[|stack| - 1], stack[..|stack| - 1];
    StackPush(nodes, leaves, front, nodes[i].left, q);
    StackPush(nodes, leaves, front + [nodes[i].left], nodes[i].right, q);
    assert Size(nodes, i) >= 1;
  }

  lemma VisitEnds(nodes: seq<Node>, leaves: seq<Leaf>, stack: seq<int>, q: Box, hits: seq<nat>, total: multiset<nat>)
    requires stack != [] && 0 <= stack[|stack| - 1] < |nodes| && Pending(nodes, leaves, stack, q, hits, total)
    requires var n := nodes[stack[|stack| - 1]]; n.IsLeaf() && 0 <= n.leaf < |leaves|
    ensures var front := stack[..|stack| - 1]; var n := nodes[stack[|stack| - 1]];
      if Intersects(n.bounds, q) then Pending(nodes, leaves, front, q, hits + [leaves[n.leaf].entityId], total)
      else Pending(nodes, leaves, front, q, hits, total)
  {
    var id := leaves[nodes[stack[|stack| - 1]].leaf].entityId;
    assert multiset(hits + [id]) == multiset(hits) + multiset{id};
  }

  lemma ChildrenFollow(nodes: seq<Node>, i: int)
    requires IsTree(nodes) && 0 <= i < |nodes|
    ensures !nodes[i].IsLeaf() ==> i < nodes[i].left < |nodes| && i < nodes[i].right < |nodes|
  {
    assert LinkAt(nodes, 0, |nodes|, i);
  }

  lemma PushedOnTree(nodes: seq<Node>, front: seq<int>, l: int, r: int)
    requires OnTree(nodes, front) && 0 <= l < |nodes| && 0 <= r < |nodes|
    ensures OnTree(nodes, front + [l] + [r])
  {
  }

  lemma VisitKeeps(nodes: seq<Node>, leaves: seq<Leaf>, stack: seq<int>, q: Box, hits: seq<nat>, total: multiset<nat>)
    requires IsTree(nodes) && LeafBoxesOk(nodes, leaves) && OnTree(nodes, stack) && stack != []
    requires Pending(nodes, leaves, stack, q, hits, total)
    ensures var front := stack[..|stack| - 1]; var n := nodes[stack[|stack| - 1]];
      && StackSize(nodes, front) < StackSize(nodes, stack) && OnTree(nodes, front)
      && if !Intersects(n.bounds, q) then Pending(nodes, leaves, front, q, hits, total)
         else if n.IsLeaf() then
           0 <= n.leaf < |leaves| && Pending(nodes, leaves, front, q, hits + [leaves[n.leaf].entityId], total)
         else
           && n.left != INVALID && n.right != INVALID && OnTree(nodes, front + [n.left] + [n.right])
           && Pending(nodes, leaves, front + [n.left] + [n.right], q, hits, total)
           && StackSize(nodes, front + [n.left] + [n.right]) < StackSize(nodes, stack)
  {
    var i := stack[|stack| - 1];
    ChildrenFollow(nodes, i);
    Visit(nodes, leaves, stack, q);
    if nodes[i].IsLeaf() {
      assert LeafBoxAt(nodes, leaves, i);
      VisitEnds(nodes, leaves, stack, q, hits, total);
    } else if Intersects(nodes[i].bounds, q) {
      PushedOnTree(nodes, stack[..|stack| - 1], nodes[i].left, nodes[i].right);
    } else {
      assert Pruned(nodes, leaves, i, q) == multiset{};
    }
  }

  /** On a tree with exact boxes the pruned traversal reports what a linear scan reports. */
  lemma TraversalIsScan(nodes: seq<Node>, leaves: seq<Leaf>, q: Box)
    requires IsTree(nodes) && Exact(nodes, leaves) && multiset(LeavesBelow(nodes, 0)) == multiset(Iota(|leaves|))
    ensures Pruned(nodes, leaves, 0, q) == multiset(Scan(leaves, q))
  {
    ExactEncloses(nodes, leaves);
    PrunedIsComplete(nodes, leaves, 0, q);
    AllHits(leaves, LeavesBelow(nodes, 0), q);
  }

  // ----- update helpers -----

  /** Every box is exact, except perhaps that of node e. */
  ghost predicate ExactBut(nodes: seq<Node>, leaves: seq<Leaf>, e: int)
  {
    forall i :: 0 <= i < |nodes| && i != e ==> ExactAt(nodes, leaves, i)
  }

  lemma LeafChangeIsLocal(nodes: seq<Node>, before: seq<Leaf>, leaves: seq<Leaf>, leafNodes: seq<int>, k: int)
    requires Exact(nodes, before) && Indexed(nodes, leafNodes, |before|) && 0 <= k < |before| == |leaves|
    requires forall j :: 0 <= j < |leaves| && j != k ==> leaves[j] == before[j]
    ensures ExactBut(nodes, leaves, leafNodes[k])
  {
    forall i | 0 <= i < |nodes| && i != leafNodes[k] ensures ExactAt(nodes, leaves, i) {
      assert ExactAt(nodes, before, i);
    }
  }

  lemma BoundsKeepShape(before: seq<Node>, nodes: seq<Node>, leafNodes: seq<int>, n: nat)
    requires IsTree(before) && Indexed(before, leafNodes, n) && |nodes| == |before|
    requires forall i :: 0 <= i < |nodes| ==> SameLinks(before[i], nodes[i])
    ensures IsTree(nodes) && Indexed(nodes, leafNodes, n) && LeavesBelow(nodes, 0) == LeavesBelow(before, 0)
  {
    forall i | 0 <= i < |nodes| ensures LinkAt(nodes, 0, |nodes|, i) {
      assert LinkAt(before, 0, |before|, i);
    }
    LeavesBelowFrame(before, nodes, 0, |nodes|, INVALID, 0);
  }

  lemma LeafRewritten(before: seq<Node>, nodes: seq<Node>, leaves: seq<Leaf>, i: int)
    requires IsTree(before) && 0 <= i < |before| && before[i].IsLeaf() && 0 <= before[i].leaf < |leaves|
    requires nodes == before[i := before[i].(bounds := leaves[before[i].leaf].state.bounds)] && IsTree(nodes)
    requires ExactBut(before, leaves, i)
    ensures ExactBut(nodes, leaves, nodes[i].parent)
    ensures nodes[i].parent == INVALID || (0 <= nodes[i].parent < |nodes| && !nodes[nodes[i].parent].IsLeaf())
  {
    OthersStayExact(before, nodes, leaves, i);
    assert LinkAt(nodes, 0, |nodes|, i);
  }

  lemma InnerRewritten(before: seq<Node>, nodes: seq<Node>, leaves: seq<Leaf>, i: int)
    requires IsTree(before) && 0 <= i < |before| && !before[i].IsLeaf()
    requires 0 <= before[i].left < |before| && 0 <= before[i].right < |before|
    requires nodes == before[i := before[i].(bounds := Merge(before[before[i].left].bounds, before[before[i].right].bounds))]
    requires IsTree(nodes) && ExactBut(before, leaves, i)
    ensures ExactBut(nodes, leaves, nodes[i].parent)
    ensures nodes[i].parent == INVALID || (0 <= nodes[i].parent < i && !nodes[nodes[i].parent].IsLeaf())
  {
    OthersStayExact(before, nodes, leaves, i);
    assert LinkAt(nodes, 0, |nodes|, i);
  }

  /** Rewriting one box can upset only that node and its parent. */
  lemma OthersStayExact(before: seq<Node>, nodes: seq<Node>, leaves: seq<Leaf>, i: int)
    requires IsTree(before) && 0 <= i < |before| == |nodes| && nodes == before[i := before[i].(bounds := nodes[i].bounds)]
    requires ExactBut(before, leaves, i)
    ensures forall j :: 0 <= j < |nodes| && j != i && j != nodes[i].parent ==> ExactAt(nodes, leaves, j)
  {
    forall j | 0 <= j < |nodes| && j != i && j != nodes[i].parent ensures ExactAt(nodes, leaves, j) {
      assert ExactAt(before, leaves, j) && LinkAt(before, 0, |before|, j);
    }
  }

  // ----- refit helpers -----

  /** After leaves 0..k and, for leaf k, the nodes from d on: what has been collected and marked. */
  ghost predicate Collecting(nodes: seq<Node>, order: seq<int>, visited: seq<bool>, k: int, d: int)
  {
    && IsTree(nodes) && |visited| == |nodes| && InOrder(nodes, order)
    && (forall x :: 0 <= x < |nodes| ==> (visited[x] <==> x in order))
    && (forall x :: x in order ==> 0 <= x < |nodes| && !nodes[x].IsLeaf())
    && (forall x :: 0 <= x < |nodes| && !nodes[x].IsLeaf() ==>
          (x in order <==> MinLeaf(nodes, x) < k || (MinLeaf(nodes, x) == k && x >= d)))
  }

  lemma MinLeavesInRange(nodes: seq<Node>, leafNodes: seq<int>, n: nat)
    requires IsTree(nodes) && Indexed(nodes, leafNodes, n)
    ensures forall x :: 0 <= x < |nodes| ==> 0 <= MinLeaf(nodes, x) < n
  {
    forall x | 0 <= x < |nodes| ensures 0 <= MinLeaf(nodes, x) < n {
      LeafNodeIsBelow(nodes, leafNodes, n, x);
    }
  }

  lemma CollectOne(nodes: seq<Node>, order: seq<int>, visited: seq<bool>, k: int, d: int, p: int)
    requires Collecting(nodes, order, visited, k, d) && 0 <= p < d < |nodes| && !nodes[p].IsLeaf() && !visited[p]
    requires MinLeaf(nodes, p) <= k && forall x :: p < x < d ==> MinLeaf(nodes, x) != k
    ensures Collecting(nodes, order + [p], visited[p := true], k, p)
  {
    assert MinLeaf(nodes, p) == k;
    var order' := order + [p];
    forall a, b | 0 <= a < b < |order'| ensures Before(nodes, order'[a], order'[b]) {
      if b == |order| {
        assert order[a] in order;
      }
    }
    assert forall x :: x in order' <==> x in order || x == p;
  }

  /** The first loop of the refit: leaf nodes 0..k carry the new boxes, nothing else has changed. */
  ghost predicate LeavesWritten(before: seq<Node>, nodes: seq<Node>, leaves: seq<Leaf>, k: nat)
    requires k <= |leaves|
  {
    && |nodes| == |before|
    && (forall i :: 0 <= i < |nodes| ==> nodes[i] == before[i].(bounds := nodes[i].bounds))
    && (forall i :: 0 <= i < |nodes| && before[i].IsLeaf() && 0 <= before[i].leaf < k ==>
          nodes[i].bounds == leaves[before[i].leaf].state.bounds)
    && (forall i :: 0 <= i < |nodes| && !before[i].IsLeaf() ==> nodes[i] == before[i])
  }

  /** The last loop: leaf nodes and the collected nodes from p on are final, earlier ones still old. */
  ghost predicate Settling(before: seq<Node>, nodes: seq<Node>, leaves: seq<Leaf>, order: seq<int>, p: nat)
    requires IsTree(before) && p <= |order|
  {
    && |nodes| == |before| && InOrder(before, order)
    && (forall i :: 0 <= i < |nodes| ==> nodes[i] == before[i].(bounds := nodes[i].bounds))
    && (forall i :: 0 <= i < |nodes| && before[i].IsLeaf() ==> nodes[i].bounds == Refitted(before, leaves, i))
    && (forall q :: 0 <= q < p ==> nodes[order[q]].bounds == before[order[q]].bounds)
    && (forall q :: p <= q < |order| ==> nodes[order[q]].bounds == Refitted(before, leaves, order[q]))
  }

  lemma {:induction false} MinLeafFrame(before: seq<Node>, nodes: seq<Node>, i: int)
    requires IsTree(before) && IsTree(nodes) && |nodes| == |before| && 0 <= i < |nodes|
    requires forall j :: 0 <= j < |nodes| ==> SameLinks(before[j], nodes[j])
    ensures MinLeaf(nodes, i) == MinLeaf(before, i)
    decreases |nodes| - i
  {
    assert LinkAt(before, 0, |before|, i) && LinkAt(nodes, 0, |nodes|, i) && SameLinks(before[i], nodes[i]);
    if !nodes[i].IsLeaf() {
      MinLeafFrame(before, nodes, nodes[i].left);
      MinLeafFrame(before, nodes, nodes[i].right);
    }
  }

  lemma SameOrder(before: seq<Node>, nodes: seq<Node>, order: seq<int>)
    requires IsTree(before) && IsTree(nodes) && |nodes| == |before| && IsCollected(nodes, order)
    requires forall j :: 0 <= j < |nodes| ==> SameLinks(before[j], nodes[j])
    ensures IsCollected(before, order)
  {
    forall i | 0 <= i < |nodes| ensures MinLeaf(nodes, i) == MinLeaf(before, i) {
      MinLeafFrame(before, nodes, i);
    }
    forall a, b | 0 <= a < b < |order| ensures Before(before, order[a], order[b]) {
      assert Before(nodes, order[a], order[b]);
    }
  }

  lemma StartsSettling(before: seq<Node>, nodes: seq<Node>, leaves: seq<Leaf>, leafNodes: seq<int>, order: seq<int>)
    requires IsTree(before) && Indexed(before, leafNodes, |leaves|) && IsCollected(before, order)
    requires LeavesWritten(before, nodes, leaves, |leaves|)
    ensures Settling(before, nodes, leaves, order, |order|)
  {
    forall i | 0 <= i < |nodes| && before[i].IsLeaf() ensures nodes[i].bounds == Refitted(before, leaves, i) {
      assert LinkAt(before, 0, |before|, i);
    }
  }

  lemma AllSettled(before: seq<Node>, nodes: seq<Node>, leaves: seq<Leaf>, order: seq<int>)
    requires IsTree(before) && IsCollected(before, order) && Settling(before, nodes, leaves, order, 0)
    ensures forall i :: 0 <= i < |nodes| ==> nodes[i] == before[i].(bounds := Refitted(before, leaves, i))
  {
    forall i | 0 <= i < |nodes| ensures nodes[i].bounds == Refitted(before, leaves, i) {
      if !before[i].IsLeaf() {
        assert i in order;
      }
    }
  }

  /** A refit to the states the leaves already have leaves every node as it was. */
  lemma UnmovedRefit(before: seq<Node>, nodes: seq<Node>, leaves: seq<Leaf>)
    requires before != [] ==> IsTree(before)
    requires |nodes| == |before| && Exact(before, leaves)
    requires forall i :: 0 <= i < |nodes| ==>
      IsTree(before) && nodes[i] == before[i].(bounds := Refitted(before, leaves, i))
    ensures nodes == before
  {
    forall i | 0 <= i < |nodes| ensures nodes[i] == before[i] {
      ExactIsStable(before, leaves, i);
    }
  }

  lemma SiblingsDiffer(nodes: seq<Node>, leafNodes: seq<int>, n: nat, i: int)
    requires IsTree(nodes) && Indexed(nodes, leafNodes, n) && 0 <= i < |nodes| && !nodes[i].IsLeaf()
    ensures 0 <= nodes[i].left < |nodes| && 0 <= nodes[i].right < |nodes|
    ensures MinLeaf(nodes, nodes[i].left) != MinLeaf(nodes, nodes[i].right)
  {
    assert LinkAt(nodes, 0, |nodes|, i);
    var l, r := nodes[i].left, nodes[i].right;
    if MinLeaf(nodes, l) == MinLeaf(nodes, r) {
      SameMinIsChain(nodes, leafNodes, n, if l < r then l else r, if l < r then r else l);
    }
  }

  /** When node order[p] is recomputed, a lagging child still has its old box and any other child its final one. */
  lemma SettleOne(before: seq<Node>, nodes: seq<Node>, leaves: seq<Leaf>, leafNodes: seq<int>, order: seq<int>, p: nat)
    requires IsTree(before) && IsCollected(before, order) && p < |order| && Settling(before, nodes, leaves, order, p + 1)
    requires Indexed(before, leafNodes, |leaves|)
    ensures var i := order[p];
      && 0 <= nodes[i].left < |nodes| && 0 <= nodes[i].right < |nodes|
      && Refitted(before, leaves, i) == Merge(nodes[nodes[i].left].bounds, nodes[nodes[i].right].bounds)
      && Settling(before, nodes[i := nodes[i].(bounds := Refitted(before, leaves, i))], leaves, order, p)
  {
    var i := order[p];
    assert LinkAt(before, 0, |before|, i);
    SiblingsDiffer(before, leafNodes, |leaves|, i);
    ChildIsSeen(before, nodes, leaves, order, p, before[i].left);
    ChildIsSeen(before, nodes, leaves, order, p, before[i].right);
    forall q | 0 <= q < |order| && q != p ensures order[q] != i {
      assert q < p ==> Before(before, order[q], order[p]);
      assert q > p ==> Before(before, order[p], order[q]);
    }
  }

  lemma ChildIsSeen(before: seq<Node>, nodes: seq<Node>, leaves: seq<Leaf>, order: seq<int>, p: nat, c: int)
    requires IsTree(before) && IsCollected(before, order) && p < |order| && Settling(before, nodes, leaves, order, p + 1)
    requires c == before[order[p]].left || c == before[order[p]].right
    requires 0 <= before[order[p]].left < |before| && 0 <= before[order[p]].right < |before|
    requires MinLeaf(before, before[order[p]].left) != MinLeaf(before, before[order[p]].right)
    ensures 0 <= c < |before|
    ensures nodes[c].bounds == if Lags(before, order[p], c) then before[c].bounds else Refitted(before, leaves, c)
  {
    var i := order[p];
    assert LinkAt(before, 0, |before|, i);
    if !before[c].IsLeaf() {
      assert c in order;
      var r :| 0 <= r < |order| && order[r] == c;
      FirstChildInherits(before, i);
      if r > p {
        assert Before(before, order[p], order[r]);
      } else {
        assert r < p;
        assert Before(before, order[r], order[p]);
      }
    }
  }

  lemma NothingAbove(nodes: seq<Node>, leafNodes: seq<int>, n: nat, k: int)
    requires IsTree(nodes) && Indexed(nodes, leafNodes, n) && 0 <= k < n
    ensures var d := leafNodes[k];
      && MinLeaf(nodes, d) == k && (nodes[d].parent == INVALID || 0 <= nodes[d].parent < |nodes|)
      && forall x :: 0 <= x < |nodes| && !nodes[x].IsLeaf() && MinLeaf(nodes, x) == k ==> x < d
  {
    var d := leafNodes[k];
    assert LinkAt(nodes, 0, |nodes|, d);
    forall x | 0 <= x < |nodes| && !nodes[x].IsLeaf() && MinLeaf(nodes, x) == k ensures x < d {
      LeafNodeIsBelow(nodes, leafNodes, n, x);
    }
  }

  lemma LinkRoot(nodes: seq<Node>, d: int)
    requires IsTree(nodes) && 0 <= d < |nodes|
    ensures nodes[d].parent == INVALID || 0 <= nodes[d].parent < d
    ensures nodes[d].parent == INVALID <==> d == 0
  {
    assert LinkAt(nodes, 0, |nodes|, d);
  }

  /** Between a node and its parent there is no other node with the same smallest leaf. */
  lemma LinkUp(nodes: seq<Node>, leafNodes: seq<int>, n: nat, d: int)
    requires IsTree(nodes) && Indexed(nodes, leafNodes, n) && 0 <= d < |nodes| && nodes[d].parent != INVALID
    ensures var p := nodes[d].parent;
      && 0 <= p < d && !nodes[p].IsLeaf() && MinLeaf(nodes, p) <= MinLeaf(nodes, d)
      && forall x :: p < x < d ==> MinLeaf(nodes, x) != MinLeaf(nodes, d)
  {
    LinkRoot(nodes, d);
    ParentIsSmaller(nodes, d);
    forall x | nodes[d].parent < x < d ensures MinLeaf(nodes, x) != MinLeaf(nodes, d) {
      if MinLeaf(nodes, x) == MinLeaf(nodes, d) {
        SameMinIsChain(nodes, leafNodes, n, x, d);
      }
    }
  }

  /** Above a parent with a smaller first leaf, no node has this first leaf. */
  lemma NothingBetween(nodes: seq<Node>, leafNodes: seq<int>, n: nat, d: int, k: int)
    requires IsTree(nodes) && Indexed(nodes, leafNodes, n) && 0 <= d < |nodes| && MinLeaf(nodes, d) == k
    requires nodes[d].parent == INVALID || 0 <= nodes[d].parent < |nodes|
    requires nodes[d].parent != INVALID ==> MinLeaf(nodes, nodes[d].parent) != k
    ensures forall x :: 0 <= x < d ==> MinLeaf(nodes, x) != k
  {
    LinkRoot(nodes, d);
    forall x | 0 <= x < d ensures MinLeaf(nodes, x) != k {
      if MinLeaf(nodes, x) == k {
        SameMinIsChain(nodes, leafNodes, n, x, d);
      }
    }
  }

  // ----- helpers -----

  ghost predicate NoDuplicates(xs: seq<int>)
  {
    forall k :: multiset(xs)[k] <= 1
  }

  ghost predicate IndexedFrom(nodes: seq<Node>, leafNodes: seq<int>, lo: int, range: seq<int>)
  {
    && 0 <= lo
    && (forall k :: k in range ==> 0 <= k < |leafNodes|)
    && (forall k :: k in range ==> lo <= leafNodes[k] < |nodes| && nodes[leafNodes[k]].leaf == k)
    && (forall i :: lo <= i < |nodes| && nodes[i].IsLeaf() ==> nodes[i].leaf in range && leafNodes[nodes[i].leaf] == i)
  }

  /** The subtree built over `range` at node lo. */
  ghost predicate Built(nodes: seq<Node>, leaves: seq<Leaf>, lo: int, parent: int, range: seq<int>)
  {
    var hi := lo + 2 * |range| - 1;
    && Linked(nodes, lo, hi, parent)
    && multiset(LeavesBelow(nodes, lo)) == multiset(range)
    && (forall i :: lo <= i < hi ==> ExactAt(nodes, leaves, i))
  }

  lemma BuiltFrame(nodes: seq<Node>, nodes': seq<Node>, leaves: seq<Leaf>, lo: int, parent: int, range: seq<int>)
    requires Built(nodes, leaves, lo, parent, range) && lo + 2 * |range| - 1 <= |nodes'|
    requires forall i :: lo <= i < lo + 2 * |range| - 1 ==> nodes'[i] == nodes[i]
    ensures Built(nodes', leaves, lo, parent, range)
  {
    var hi := lo + 2 * |range| - 1;
    LeavesBelowFrame(nodes, nodes', lo, hi, parent, lo);
    forall i | lo <= i < hi ensures LinkAt(nodes', lo, hi, i) && ExactAt(nodes', leaves, i) {
      assert LinkAt(nodes, lo, hi, i) && ExactAt(nodes, leaves, i);
    }
  }

  lemma HalvesAreDisjoint(range: seq<int>, lower: seq<int>, upper: seq<int>)
    requires multiset(lower + upper) == multiset(range) && NoDuplicates(range)
    ensures NoDuplicates(lower) && NoDuplicates(upper)
    ensures forall k :: k in lower ==> k !in upper
    ensures forall k :: k in range <==> k in lower || k in upper
  {
    forall k
      ensures multiset(lower)[k] <= 1 && multiset(upper)[k] <= 1 && (k in lower ==> k !in upper)
      ensures k in range <==> k in lower || k in upper
    {
      CountsAdd(range, lower, upper, k);
    }
  }

  lemma CountsAdd(range: seq<int>, lower: seq<int>, upper: seq<int>, k: int)
    requires multiset(lower + upper) == multiset(range) && NoDuplicates(range)
    ensures multiset(lower)[k] + multiset(upper)[k] <= 1
    ensures k in lower <==> multiset(lower)[k] > 0
    ensures k in upper <==> multiset(upper)[k] > 0
    ensures k in range <==> multiset(lower)[k] + multiset(upper)[k] > 0
  {
    assert multiset(range)[k] == multiset(lower)[k] + multiset(upper)[k] <= 1;
    assert k in range <==> multiset(range)[k] > 0;
  }

  lemma JoinExact(nodes: seq<Node>, leaves: seq<Leaf>, lo: int, mid: int, hi: int)
    requires 0 <= lo < mid < hi <= |nodes| && ExactAt(nodes, leaves, lo)
    requires forall i :: lo + 1 <= i < mid ==> ExactAt(nodes, leaves, i)
    requires forall i :: mid <= i < hi ==> ExactAt(nodes, leaves, i)
    ensures forall i :: lo <= i < hi ==> ExactAt(nodes, leaves, i)
  {
  }

  lemma JoinBuilt(nodes: seq<Node>, leaves: seq<Leaf>, idx: int, parent: int, lower: seq<int>, upper: seq<int>, range: seq<int>)
    requires lower != [] && upper != [] && multiset(range) == multiset(lower) + multiset(upper)
    requires |range| == |lower| + |upper|
    requires 0 <= idx && idx + 2 * |range| - 1 <= |nodes|
    requires !nodes[idx].IsLeaf() && nodes[idx].parent == parent
    requires nodes[idx].left == idx + 1 && nodes[idx].right == idx + 2 * |lower|
    requires nodes[idx].bounds == Merge(nodes[idx + 1].bounds, nodes[idx + 2 * |lower|].bounds)
    requires Built(nodes, leaves, idx + 1, idx, lower) && Built(nodes, leaves, idx + 2 * |lower|, idx, upper)
    ensures Built(nodes, leaves, idx, parent, range)
  {
    JoinLinked(nodes, idx, idx + 2 * |lower|, idx + 2 * |range| - 1, parent);
    JoinExact(nodes, leaves, idx, idx + 2 * |lower|, idx + 2 * |range| - 1);
    assert LeavesBelow(nodes, idx) == LeavesBelow(nodes, idx + 1) + LeavesBelow(nodes, idx + 2 * |lower|);
  }

  lemma JoinChildren(children: seq<Node>, nodes: seq<Node>, leaves: seq<Leaf>, idx: int, parent: int,
                     lower: seq<int>, upper: seq<int>, range: seq<int>)
    requires lower != [] && upper != [] && multiset(range) == multiset(lower) + multiset(upper)
    requires |range| == |lower| + |upper|
    requires 0 <= idx && idx + 2 * |range| - 1 <= |children|
    requires Built(children, leaves, idx + 1, idx, lower) && Built(children, leaves, idx + 2 * |lower|, idx, upper)
    requires nodes == children[idx := Node(Merge(children[idx + 1].bounds, children[idx + 2 * |lower|].bounds),
                                           idx + 1, idx + 2 * |lower|, parent, INVALID)]
    ensures Built(nodes, leaves, idx, parent, range)
  {
    BuiltFrame(children, nodes, leaves, idx + 1, idx, lower);
    BuiltFrame(children, nodes, leaves, idx + 2 * |lower|, idx, upper);
    JoinBuilt(nodes, leaves, idx, parent, lower, upper, range);
  }

  /** Filling in an inner node over its two finished children. */
  lemma FinishInner(children: seq<Node>, nodes: seq<Node>, leaves: seq<Leaf>, leafNodes: seq<int>, idx: int, parent: int,
                    lower: seq<int>, upper: seq<int>, range: seq<int>)
    requires |range| > 1 && IsHalving(leaves, range, lower, upper) && (forall k :: k in range <==> k in lower || k in upper)
    requires 0 <= idx && idx + 2 * |range| - 1 == |children|
    requires Built(children, leaves, idx + 1, idx, lower) && Built(children, leaves, idx + 2 * |lower|, idx, upper)
    requires MedianSplit(children, leaves, idx + 1, lower) && MedianSplit(children, leaves, idx + 2 * |lower|, upper)
    requires IndexedFrom(children, leafNodes, idx + 1, lower + upper)
    requires nodes == children[idx := Node(Merge(children[idx + 1].bounds, children[idx + 2 * |lower|].bounds),
                                           idx + 1, idx + 2 * |lower|, parent, INVALID)]
    ensures Built(nodes, leaves, idx, parent, range) && MedianSplit(nodes, leaves, idx, range)
    ensures IndexedFrom(nodes, leafNodes, idx, range)
  {
    JoinChildren(children, nodes, leaves, idx, parent, lower, upper, range);
    MedianJoin(children, nodes, leaves, idx, lower, upper, range);
    IndexedAround(children, nodes, leafNodes, idx, lower, upper, range);
  }

  lemma JoinLinked(nodes: seq<Node>, lo: int, mid: int, hi: int, parent: int)
    requires 0 <= lo && lo + 1 < mid < hi <= |nodes|
    requires !nodes[lo].IsLeaf() && nodes[lo].parent == parent && nodes[lo].left == lo + 1 && nodes[lo].right == mid
    requires Linked(nodes, lo + 1, mid, lo) && Linked(nodes, mid, hi, lo)
    ensures Linked(nodes, lo, hi, parent)
  {
    forall i | lo <= i < hi ensures LinkAt(nodes, lo, hi, i) {
      if lo < i < mid {
        assert LinkAt(nodes, lo + 1, mid, i);
      } else if mid <= i {
        assert LinkAt(nodes, mid, hi, i);
      }
    }
  }

  lemma IndexedJoin(nodes1: seq<Node>, nodes: seq<Node>, leafNodes1: seq<int>, leafNodes: seq<int>,
                    lo: int, lower: seq<int>, upper: seq<int>)
    requires |nodes1| <= |nodes| && nodes[..|nodes1|] == nodes1 && |leafNodes1| == |leafNodes|
    requires IndexedFrom(nodes1, leafNodes1, lo, lower) && lo <= |nodes1| && IndexedFrom(nodes, leafNodes, |nodes1|, upper)
    requires forall k :: k in lower ==> k !in upper
    requires forall k :: 0 <= k < |leafNodes| && k !in upper ==> leafNodes[k] == leafNodes1[k]
    ensures IndexedFrom(nodes, leafNodes, lo, lower + upper)
  {
    assert forall i :: 0 <= i < |nodes1| ==> nodes[i] == nodes1[i];
  }

  lemma IndexedAround(children: seq<Node>, nodes: seq<Node>, leafNodes: seq<int>, idx: int,
                       lower: seq<int>, upper: seq<int>, range: seq<int>)
    requires 0 <= idx < |nodes| == |children| && nodes == children[idx := nodes[idx]] && !nodes[idx].IsLeaf()
    requires IndexedFrom(children, leafNodes, idx + 1, lower + upper)
    requires forall k :: k in range <==> k in lower || k in upper
    ensures IndexedFrom(nodes, leafNodes, idx, range)
  {
    assert forall k :: k in range <==> k in lower + upper;
  }

  lemma BuiltIsTree(nodes: seq<Node>, leaves: seq<Leaf>, leafNodes: seq<int>)
    requires leaves != [] && Built(nodes, leaves, 0, INVALID, Iota(|leaves|)) && |nodes| == 2 * |leaves| - 1
    requires |leafNodes| == |leaves| && IndexedFrom(nodes, leafNodes, 0, Iota(|leaves|))
    ensures IsTree(nodes) && Indexed(nodes, leafNodes, |leaves|) && Exact(nodes, leaves)
  {
    forall k | 0 <= k < |leaves| ensures k in Iota(|leaves|) {
      assert Iota(|leaves|)[k] == k;
    }
  }

  // ----- std::ranges::nth_element -----

  ghost predicate Sorted(xs: seq<int>, leaves: seq<Leaf>, byX: bool)
  {
    forall i, j :: 0 <= i < j < |xs| ==> Key(leaves, xs[i], byX) <= Key(leaves, xs[j], byX)
  }

  method Insert(xs: seq<int>, x: int, leaves: seq<Leaf>, byX: bool) returns (r: seq<int>)
    requires Sorted(xs, leaves, byX)
    ensures Sorted(r, leaves, byX) && multiset(r) == multiset(xs) + multiset{x}
  {
    var i := 0;
    while i < |xs| && Key(leaves, xs[i], byX) <= Key(leaves, x, byX)
      invariant 0 <= i <= |xs|
      invariant forall j :: 0 <= j < i ==> Key(leaves, xs[j], byX) <= Key(leaves, x, byX)
    {
      i := i + 1;
    }
    r := xs[..i] + [x] + xs[i..];
    InsertedAt(xs, x, i);
    InsertedIsSorted(xs, x, i, leaves, byX);
  }

  lemma InsertedAt(xs: seq<int>, x: int, i: nat)
    requires i <= |xs|
    ensures multiset(xs[..i] + [x] + xs[i..]) == multiset(xs) + multiset{x}
  {
    assert xs == xs[..i] + xs[i..];
  }

  lemma InsertedIsSorted(xs: seq<int>, x: int, i: nat, leaves: seq<Leaf>, byX: bool)
    requires i <= |xs| && Sorted(xs, leaves, byX)
    requires forall j :: 0 <= j < i ==> Key(leaves, xs[j], byX) <= Key(leaves, x, byX)
    requires i < |xs| ==> Key(leaves, x, byX) <= Key(leaves, xs[i], byX)
    ensures Sorted(xs[..i] + [x] + xs[i..], leaves, byX)
  {
    var r := xs[..i] + [x] + xs[i..];
    assert forall j :: 0 <= j < |r| ==> r[j] == if j < i then xs[j] else if j == i then x else xs[j - 1];
  }

  /** The library's contract: a permutation split around position mid. Callers see nothing more. */
  method NthElement(range: seq<int>, mid: nat, leaves: seq<Leaf>, byX: bool) returns (r: seq<int>)
    requires mid < |range|
    ensures multiset(r) == multiset(range) && |r| == |range|
    ensures forall i :: 0 <= i <= mid ==> Key(leaves, r[i], byX) <= Key(leaves, r[mid], byX)
    ensures forall j :: mid <= j < |r| ==> Key(leaves, r[mid], byX) <= Key(leaves, r[j], byX)
  {
    r := [];
    for i := 0 to |range|
      invariant Sorted(r, leaves, byX) && multiset(r) == multiset(range[..i])
    {
      r := Insert(r, range[i], leaves, byX);
      assert range[..i + 1] == range[..i] + [range[i]];
    }
    assert range[..|range|] == range;
    assert |multiset(r)| == |r| && |multiset(range)| == |range|;
  }
}
