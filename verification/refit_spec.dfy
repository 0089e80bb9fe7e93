/**
 What `TLAS2::refit` leaves in the tree. Its last loop walks the collected ancestors from the last to the first,
 so a node is recomputed before the child through which it was first reached, and sees that child's old box.
 */
module RefitSpec {
  import opened BvhSpec

  /** The smallest leaf index below node i. */
  ghost function MinLeaf(nodes: seq<Node>, i: int): int
    requires IsTree(nodes) && 0 <= i < |nodes|
    decreases |nodes| - i
  {
    assert LinkAt(nodes, 0, |nodes|, i);
    if nodes[i].IsLeaf() then nodes[i].leaf
    else
      var l, r := MinLeaf(nodes, nodes[i].left), MinLeaf(nodes, nodes[i].right);
      if l < r then l else r
  }

  /** The child through which inner node i is first reached: the one above the smallest leaf index. */
  ghost function FirstChild(nodes: seq<Node>, i: int): int
    requires IsTree(nodes) && 0 <= i < |nodes| && !nodes[i].IsLeaf()
  {
    assert LinkAt(nodes, 0, |nodes|, i);
    if MinLeaf(nodes, nodes[i].left) < MinLeaf(nodes, nodes[i].right) then nodes[i].left else nodes[i].right
  }

  /** Node c lags: its parent p is recomputed before c itself. */
  ghost predicate Lags(nodes: seq<Node>, p: int, c: int)
    requires IsTree(nodes) && 0 <= p < |nodes| && !nodes[p].IsLeaf() && 0 <= c < |nodes|
  {
    c == FirstChild(nodes, p) && !nodes[c].IsLeaf()
  }

  /** The union of the leaf boxes below node i: what an exact refit would store. */
  ghost function TrueBox(nodes: seq<Node>, leaves: seq<Leaf>, i: int): Box
    requires IsTree(nodes) && 0 <= i < |nodes|
    decreases |nodes| - i
  {
    assert LinkAt(nodes, 0, |nodes|, i);
    if nodes[i].IsLeaf() then
      if 0 <= nodes[i].leaf < |leaves| then leaves[nodes[i].leaf].state.bounds else nodes[i].bounds
    else Merge(TrueBox(nodes, leaves, nodes[i].left), TrueBox(nodes, leaves, nodes[i].right))
  }

  /** What the refit stores in node i, given the nodes as they were before it and the new leaves. */
  ghost function Refitted(nodes: seq<Node>, leaves: seq<Leaf>, i: int): Box
    requires IsTree(nodes) && 0 <= i < |nodes|
    decreases |nodes| - i
  {
    assert LinkAt(nodes, 0, |nodes|, i);
    if nodes[i].IsLeaf() then
      if 0 <= nodes[i].leaf < |leaves| then leaves[nodes[i].leaf].state.bounds else nodes[i].bounds
    else
      var l, r := nodes[i].left, nodes[i].right;
      Merge(if Lags(nodes, i, l) then nodes[l].bounds else Refitted(nodes, leaves, l),
            if Lags(nodes, i, r) then nodes[r].bounds else Refitted(nodes, leaves, r))
  }

  /** The old box of a lagging child, merged with its sibling's new union, already is the new union. */
  ghost predicate CaughtUpAt(nodes: seq<Node>, leaves: seq<Leaf>, i: int)
    requires IsTree(nodes) && 0 <= i < |nodes|
  {
    assert LinkAt(nodes, 0, |nodes|, i);
    !nodes[i].IsLeaf() ==>
      var l, r := nodes[i].left, nodes[i].right;
      TrueBox(nodes, leaves, i)
      == Merge(if Lags(nodes, i, l) then nodes[l].bounds else TrueBox(nodes, leaves, l),
               if Lags(nodes, i, r) then nodes[r].bounds else TrueBox(nodes, leaves, r))
  }

  lemma {:induction false} CaughtUpRefits(nodes: seq<Node>, leaves: seq<Leaf>, i: int)
    requires IsTree(nodes) && 0 <= i < |nodes|
    requires forall j :: 0 <= j < |nodes| ==> CaughtUpAt(nodes, leaves, j)
    ensures Refitted(nodes, leaves, i) == TrueBox(nodes, leaves, i)
    decreases |nodes| - i
  {
    assert LinkAt(nodes, 0, |nodes|, i) && CaughtUpAt(nodes, leaves, i);
    if !nodes[i].IsLeaf() {
      CaughtUpRefits(nodes, leaves, nodes[i].left);
      CaughtUpRefits(nodes, leaves, nodes[i].right);
    }
  }

  ghost predicate RefitsTo(nodes: seq<Node>, leaves: seq<Leaf>, i: int)
    requires IsTree(nodes) && 0 <= i < |nodes|
  {
    Refitted(nodes, leaves, i) == TrueBox(nodes, leaves, i)
  }

  lemma ExactMeansCaughtUp(nodes: seq<Node>, leaves: seq<Leaf>, i: int)
    requires IsTree(nodes) && 0 <= i < |nodes|
    requires forall j :: 0 <= j < |nodes| ==> RefitsTo(nodes, leaves, j)
    ensures CaughtUpAt(nodes, leaves, i)
  {
    assert LinkAt(nodes, 0, |nodes|, i) && RefitsTo(nodes, leaves, i);
    if !nodes[i].IsLeaf() {
      assert RefitsTo(nodes, leaves, nodes[i].left) && RefitsTo(nodes, leaves, nodes[i].right);
    }
  }

  /** A refit stores exact boxes iff every lagging child's old box was already good enough for its parent. */
  lemma RefitIsExactIff(nodes: seq<Node>, leaves: seq<Leaf>)
    requires IsTree(nodes)
    ensures (forall i :: 0 <= i < |nodes| ==> RefitsTo(nodes, leaves, i))
            <==> (forall i :: 0 <= i < |nodes| ==> CaughtUpAt(nodes, leaves, i))
  {
    if forall i :: 0 <= i < |nodes| ==> CaughtUpAt(nodes, leaves, i) {
      forall i | 0 <= i < |nodes| ensures RefitsTo(nodes, leaves, i) {
        CaughtUpRefits(nodes, leaves, i);
      }
    }
    if forall i :: 0 <= i < |nodes| ==> RefitsTo(nodes, leaves, i) {
      forall i | 0 <= i < |nodes| ensures CaughtUpAt(nodes, leaves, i) {
        ExactMeansCaughtUp(nodes, leaves, i);
      }
    }
  }

  /** Boxes that already fit the leaves stay as they are. */
  lemma {:induction false} ExactIsStable(nodes: seq<Node>, leaves: seq<Leaf>, i: int)
    requires IsTree(nodes) && Exact(nodes, leaves) && 0 <= i < |nodes|
    ensures Refitted(nodes, leaves, i) == TrueBox(nodes, leaves, i) == nodes[i].bounds
    decreases |nodes| - i
  {
    assert LinkAt(nodes, 0, |nodes|, i) && ExactAt(nodes, leaves, i);
    if !nodes[i].IsLeaf() {
      ExactIsStable(nodes, leaves, nodes[i].left);
      ExactIsStable(nodes, leaves, nodes[i].right);
    }
  }

  /** The tree that a refit leaves behind. */
  ghost predicate IsRefit(before: seq<Node>, nodes: seq<Node>, leaves: seq<Leaf>)
  {
    && IsTree(before) && IsTree(nodes) && |nodes| == |before|
    && (forall i :: 0 <= i < |nodes| ==> nodes[i] == before[i].(bounds := Refitted(before, leaves, i)))
    && (forall i :: 0 <= i < |nodes| && before[i].IsLeaf() ==> 0 <= before[i].leaf < |leaves|)
  }

  // ----- the refit loses moved leaves -----

  function PointBox(x: real): Box { Box(x, 0.0, x, 0.0) }

  function PointLeaf(x: real, id: nat): Leaf { Leaf(LeafState(Pose(x, 0.0, 0.0), PointBox(x), 0.0, 0.0), id) }

  function Segment(x: real, x': real): Box { Box(x, 0.0, x', 0.0) }

  /** Four leaves at x = 0, 1, 2, 3 under two inner nodes. */
  function FourLeaves(): seq<Node>
  {
    [Node(Segment(0.0, 3.0), 1, 4, INVALID, INVALID),
     Node(Segment(0.0, 1.0), 2, 3, 0, INVALID),
     Node(PointBox(0.0), INVALID, INVALID, 1, 0),
     Node(PointBox(1.0), INVALID, INVALID, 1, 1),
     Node(Segment(2.0, 3.0), 5, 6, 0, INVALID),
     Node(PointBox(2.0), INVALID, INVALID, 4, 2),
     Node(PointBox(3.0), INVALID, INVALID, 4, 3)]
  }

  /** The leaves of that tree, the first two of them at x and x'. */
  function Leaves(x: real, x': real): seq<Leaf>
  {
    [PointLeaf(x, 1), PointLeaf(x', 2), PointLeaf(2.0, 3), PointLeaf(3.0, 4)]
  }

  lemma FourLeavesIsTree()
    ensures IsTree(FourLeaves())
  {
    var nodes := FourLeaves();
    forall i | 0 <= i < |nodes| ensures LinkAt(nodes, 0, |nodes|, i) {
      if i < 4 {
        assert i == 0 || i == 1 || i == 2 || i == 3;
      } else {
        assert i == 4 || i == 5 || i == 6;
      }
    }
  }

  lemma FourLeavesIsExact()
    ensures Exact(FourLeaves(), Leaves(0.0, 1.0))
  {
    var nodes := FourLeaves();
    forall i | 0 <= i < |nodes| ensures ExactAt(nodes, Leaves(0.0, 1.0), i) {
      if i < 4 {
        assert i == 0 || i == 1 || i == 2 || i == 3;
      } else {
        assert i == 4 || i == 5 || i == 6;
      }
    }
  }

  /**
   The failing input: leaves 0 and 1 move from x = 0 and 1 to x = 10 and 11. The refit leaves the root's box
   as it was, and a query at x = 10 does not get past it.
   */
  lemma RefitLosesMovedLeaves()
    ensures IsTree(FourLeaves()) && Exact(FourLeaves(), Leaves(0.0, 1.0))
    ensures var after := Leaves(10.0, 11.0);
      && TrueBox(FourLeaves(), after, 0) == Segment(2.0, 11.0)
      && Refitted(FourLeaves(), after, 0) == Segment(0.0, 3.0)
      && !Intersects(Refitted(FourLeaves(), after, 0), PointBox(10.0))
      && Intersects(after[0].state.bounds, PointBox(10.0))
  {
    FourLeavesIsTree();
    FourLeavesIsExact();
    var nodes := FourLeaves();
    var after := Leaves(10.0, 11.0);
    assert MinLeaf(nodes, 2) == 0 && MinLeaf(nodes, 3) == 1 && MinLeaf(nodes, 5) == 2 && MinLeaf(nodes, 6) == 3;
    assert MinLeaf(nodes, 1) == 0 && MinLeaf(nodes, 4) == 2;
    assert FirstChild(nodes, 0) == 1;
    assert Refitted(nodes, after, 5) == PointBox(2.0) && Refitted(nodes, after, 6) == PointBox(3.0);
    assert Refitted(nodes, after, 4) == Segment(2.0, 3.0);
    assert TrueBox(nodes, after, 2) == PointBox(10.0) && TrueBox(nodes, after, 3) == PointBox(11.0);
    assert TrueBox(nodes, after, 1) == Segment(10.0, 11.0);
    assert TrueBox(nodes, after, 5) == PointBox(2.0) && TrueBox(nodes, after, 6) == PointBox(3.0);
    assert TrueBox(nodes, after, 4) == Segment(2.0, 3.0);
  }

  // ----- the order in which ancestors are collected -----

  lemma FirstChildInherits(nodes: seq<Node>, i: int)
    requires IsTree(nodes) && 0 <= i < |nodes| && !nodes[i].IsLeaf()
    ensures var c := FirstChild(nodes, i);
      i < c < |nodes| && nodes[c].parent == i && MinLeaf(nodes, c) == MinLeaf(nodes, i)
  {
    assert LinkAt(nodes, 0, |nodes|, i);
  }

  lemma ParentIsSmaller(nodes: seq<Node>, d: int)
    requires IsTree(nodes) && 0 < d < |nodes|
    ensures var p := nodes[d].parent; 0 <= p < d && !nodes[p].IsLeaf() && MinLeaf(nodes, p) <= MinLeaf(nodes, d)
  {
    assert LinkAt(nodes, 0, |nodes|, d);
    assert LinkAt(nodes, 0, |nodes|, nodes[d].parent);
  }

  /** Every leaf index has one leaf node. */
  ghost predicate Indexed(nodes: seq<Node>, leafNodes: seq<int>, n: nat)
  {
    && |leafNodes| == n
    && (forall k :: 0 <= k < n ==> 0 <= leafNodes[k] < |nodes| && nodes[leafNodes[k]].leaf == k)
    && (forall i :: 0 <= i < |nodes| && nodes[i].IsLeaf() ==> 0 <= nodes[i].leaf < n && leafNodes[nodes[i].leaf] == i)
  }

  /** The leaf node of x's smallest leaf lies at or after x. */
  lemma {:induction false} LeafNodeIsBelow(nodes: seq<Node>, leafNodes: seq<int>, n: nat, x: int)
    requires IsTree(nodes) && Indexed(nodes, leafNodes, n) && 0 <= x < |nodes|
    ensures 0 <= MinLeaf(nodes, x) < n && x <= leafNodes[MinLeaf(nodes, x)]
    ensures nodes[x].IsLeaf() ==> leafNodes[MinLeaf(nodes, x)] == x
    decreases |nodes| - x
  {
    if !nodes[x].IsLeaf() {
      FirstChildInherits(nodes, x);
      LeafNodeIsBelow(nodes, leafNodes, n, FirstChild(nodes, x));
    }
  }

  /** Nodes with the same smallest leaf form a chain of parents. */
  lemma {:induction false} SameMinIsChain(nodes: seq<Node>, leafNodes: seq<int>, n: nat, x: int, d: int)
    requires IsTree(nodes) && Indexed(nodes, leafNodes, n) && 0 <= x < d < |nodes|
    requires MinLeaf(nodes, x) == MinLeaf(nodes, d)
    ensures var p := nodes[d].parent; x <= p < d && MinLeaf(nodes, p) == MinLeaf(nodes, d)
    decreases 2 * |nodes| - x - d
  {
    LeafNodeIsBelow(nodes, leafNodes, n, d);
    LeafNodeIsBelow(nodes, leafNodes, n, x);
    if !nodes[x].IsLeaf() {
      FirstChildInherits(nodes, x);
      var y := FirstChild(nodes, x);
      if y < d {
        SameMinIsChain(nodes, leafNodes, n, y, d);
      } else if y > d {
        SameMinIsChain(nodes, leafNodes, n, d, y);
      }
    }
  }

  /** Collected earlier: smaller first leaf, or the same one and deeper. */
  ghost predicate Before(nodes: seq<Node>, x: int, y: int)
    requires IsTree(nodes) && 0 <= x < |nodes| && 0 <= y < |nodes|
  {
    MinLeaf(nodes, x) < MinLeaf(nodes, y) || (MinLeaf(nodes, x) == MinLeaf(nodes, y) && x > y)
  }

  ghost predicate InOrder(nodes: seq<Node>, order: seq<int>)
    requires IsTree(nodes)
  {
    && (forall p :: 0 <= p < |order| ==> 0 <= order[p] < |nodes| && !nodes[order[p]].IsLeaf())
    && (forall p, q :: 0 <= p < q < |order| ==> Before(nodes, order[p], order[q]))
  }

  /** All inner nodes, in the order in which the refit collects them. */
  ghost predicate IsCollected(nodes: seq<Node>, order: seq<int>)
    requires IsTree(nodes)
  {
    InOrder(nodes, order) && forall x :: 0 <= x < |nodes| && !nodes[x].IsLeaf() ==> x in order
  }
}
