/** A tree as the program builds it, whose refit loses moved leaves. */
module LosingRefit {
  import opened BvhSpec
  import opened RefitSpec
  import opened MedianSplits
  import opened RefitQueries
  import opened Bvh

  lemma FourKeys()
    ensures forall k :: 0 <= k < 4 ==> Key(Leaves(0.0, 1.0), k, true) == k as real
  {
    var leaves := Leaves(0.0, 1.0);
    assert leaves[0] == PointLeaf(0.0, 1) && leaves[1] == PointLeaf(1.0, 2);
    assert leaves[2] == PointLeaf(2.0, 3) && leaves[3] == PointLeaf(3.0, 4);
    forall k | 0 <= k < 4 ensures Key(leaves, k, true) == k as real {
      assert k == 0 || k == 1 || k == 2 || k == 3;
    }
  }

  lemma BoxOfFour()
    ensures RangeBox(Leaves(0.0, 1.0), Iota(4)) == Segment(0.0, 3.0)
  {
    var leaves := Leaves(0.0, 1.0);
    assert Iota(4)[..3] == Iota(3) && Iota(3)[..2] == Iota(2) && Iota(2)[..1] == Iota(1);
    assert RangeBox(leaves, Iota(1)) == PointBox(0.0);
    assert RangeBox(leaves, Iota(2)) == Segment(0.0, 1.0);
    assert RangeBox(leaves, Iota(3)) == Segment(0.0, 2.0);
  }

  lemma BoxOfTwo(range: seq<int>, a: int)
    requires |range| == 2 && 0 <= a < 3 && (range == [a, a + 1] || range == [a + 1, a])
    ensures RangeBox(Leaves(0.0, 1.0), range) == Segment(a as real, (a + 1) as real)
  {
    var leaves := Leaves(0.0, 1.0);
    assert range[..1] == [range[0]];
    assert a == 0 || a == 1 || a == 2;
    assert leaves[0] == PointLeaf(0.0, 1) && leaves[1] == PointLeaf(1.0, 2);
    assert leaves[2] == PointLeaf(2.0, 3) && leaves[3] == PointLeaf(3.0, 4);
  }

  lemma HalvesHold(range: seq<int>, lower: seq<int>, upper: seq<int>, k: int)
    requires multiset(range) == multiset(lower) + multiset(upper)
    ensures k in range <==> k in lower || k in upper
  {
    assert k in multiset(range) <==> k in multiset(lower) || k in multiset(upper);
  }

  lemma KeysOrder(lower: seq<int>, upper: seq<int>, i: nat, j: nat)
    requires Separated(Leaves(0.0, 1.0), lower, upper, true) && i < |lower| && j < |upper|
    requires 0 <= lower[i] < 4 && 0 <= upper[j] < 4
    ensures lower[i] <= upper[j]
  {
    FourKeys();
    assert Key(Leaves(0.0, 1.0), lower[i], true) <= Key(Leaves(0.0, 1.0), upper[j], true);
  }

  lemma TwoHalves(range: seq<int>, a: int, lower: seq<int>, upper: seq<int>)
    requires 0 <= a < 3 && (range == [a, a + 1] || range == [a + 1, a])
    requires IsHalving(Leaves(0.0, 1.0), range, lower, upper)
    ensures lower == [a] && upper == [a + 1]
  {
    BoxOfTwo(range, a);
    HalvesHold(range, lower, upper, a);
    HalvesHold(range, lower, upper, a + 1);
    HalvesHold(range, lower, upper, lower[0]);
    HalvesHold(range, lower, upper, upper[0]);
    KeysOrder(lower, upper, 0, 0);
  }

  /** Two neighbours split into the smaller and the larger. */
  lemma TwoSplit(nodes: seq<Node>, lo: int, range: seq<int>, a: int)
    requires 0 <= a < 3 && (range == [a, a + 1] || range == [a + 1, a])
    requires MedianSplit(nodes, Leaves(0.0, 1.0), lo, range)
    ensures !nodes[lo].IsLeaf() && nodes[lo].left == lo + 1 && nodes[lo].right == lo + 2
    ensures nodes[lo + 1].leaf == a && nodes[lo + 2].leaf == a + 1
  {
    var lower, upper :| SplitsInto(nodes, Leaves(0.0, 1.0), lo, range, lower, upper);
    TwoHalves(range, a, lower, upper);
    OneSplit(nodes, lo + 1, a);
    OneSplit(nodes, lo + 2, a + 1);
  }

  lemma OneSplit(nodes: seq<Node>, lo: int, k: int)
    requires MedianSplit(nodes, Leaves(0.0, 1.0), lo, [k])
    ensures nodes[lo].leaf == k
  {
  }

  lemma FourInOrder(a: int, b: int, c: int, d: int)
    requires 0 <= a < 4 && 0 <= b < 4 && 0 <= c < 4 && 0 <= d < 4
    requires forall k :: 0 <= k < 4 ==> k in [a, b, c, d]
    requires a <= c && a <= d && b <= c && b <= d
    ensures ((a == 0 && b == 1) || (a == 1 && b == 0)) && ((c == 2 && d == 3) || (c == 3 && d == 2))
  {
    assert 0 in [a, b, c, d] && 1 in [a, b, c, d] && 2 in [a, b, c, d] && 3 in [a, b, c, d];
  }

  lemma InIota(k: int)
    ensures k in Iota(4) <==> 0 <= k < 4
  {
    assert 0 <= k < 4 ==> Iota(4)[k] == k;
  }

  /** The lower half of the four is the first two, in some order. */
  lemma FourHalves(lower: seq<int>, upper: seq<int>)
    requires IsHalving(Leaves(0.0, 1.0), Iota(4), lower, upper)
    ensures (lower == [0, 1] || lower == [1, 0]) && (upper == [2, 3] || upper == [3, 2])
  {
    BoxOfFour();
    var a, b, c, d := lower[0], lower[1], upper[0], upper[1];
    assert lower == [a, b] && upper == [c, d];
    forall k ensures 0 <= k < 4 <==> k in [a, b, c, d] {
      HalvesHold(Iota(4), lower, upper, k);
      InIota(k);
    }
    assert a in [a, b, c, d] && b in [a, b, c, d] && c in [a, b, c, d] && d in [a, b, c, d];
    KeysOrder(lower, upper, 0, 0);
    KeysOrder(lower, upper, 0, 1);
    KeysOrder(lower, upper, 1, 0);
    KeysOrder(lower, upper, 1, 1);
    FourInOrder(a, b, c, d);
  }

  lemma TopSplit(nodes: seq<Node>) returns (lower: seq<int>, upper: seq<int>)
    requires MedianSplit(nodes, Leaves(0.0, 1.0), 0, Iota(4))
    ensures |nodes| >= 7 && !nodes[0].IsLeaf() && nodes[0].left == 1 && nodes[0].right == 4
    ensures lower == [0, 1] || lower == [1, 0]
    ensures upper == [2, 3] || upper == [3, 2]
    ensures MedianSplit(nodes, Leaves(0.0, 1.0), 1, lower) && MedianSplit(nodes, Leaves(0.0, 1.0), 4, upper)
  {
    lower, upper :| SplitsInto(nodes, Leaves(0.0, 1.0), 0, Iota(4), lower, upper);
    FourHalves(lower, upper);
  }

  /** Links and leaf indices are forced by the two levels of splits. */
  lemma FourLinks(nodes: seq<Node>)
    requires MedianSplit(nodes, Leaves(0.0, 1.0), 0, Iota(4))
    ensures |nodes| >= 7 && !nodes[0].IsLeaf() && !nodes[1].IsLeaf() && !nodes[4].IsLeaf()
    ensures nodes[0].left == 1 && nodes[0].right == 4
    ensures nodes[1].left == 2 && nodes[1].right == 3 && nodes[4].left == 5 && nodes[4].right == 6
    ensures nodes[2].leaf == 0 && nodes[3].leaf == 1 && nodes[5].leaf == 2 && nodes[6].leaf == 3
  {
    var lower, upper := TopSplit(nodes);
    TwoSplit(nodes, 1, lower, 0);
    TwoSplit(nodes, 4, upper, 2);
  }

  /** The build over the four leaves yields the tree of the counterexample. */
  lemma FourLeavesAreBuilt(nodes: seq<Node>)
    requires |nodes| == 7 && IsTree(nodes) && Exact(nodes, Leaves(0.0, 1.0))
    requires MedianSplit(nodes, Leaves(0.0, 1.0), 0, Iota(4))
    ensures nodes == FourLeaves()
  {
    FourLinks(nodes);
    var leaves := Leaves(0.0, 1.0);
    assert LinkAt(nodes, 0, 7, 0) && LinkAt(nodes, 0, 7, 1) && LinkAt(nodes, 0, 7, 2) && LinkAt(nodes, 0, 7, 3);
    assert LinkAt(nodes, 0, 7, 4) && LinkAt(nodes, 0, 7, 5) && LinkAt(nodes, 0, 7, 6);
    assert ExactAt(nodes, leaves, 2) && ExactAt(nodes, leaves, 3) && ExactAt(nodes, leaves, 5) && ExactAt(nodes, leaves, 6);
    assert ExactAt(nodes, leaves, 1) && ExactAt(nodes, leaves, 4) && ExactAt(nodes, leaves, 0);
    assert nodes[1].bounds == Segment(0.0, 1.0) && nodes[4].bounds == Segment(2.0, 3.0);
  }

  function StatesOf(leaves: seq<Leaf>): seq<LeafState>
  {
    seq(|leaves|, k requires 0 <= k < |leaves| => leaves[k].state)
  }

  lemma NothingFound(nodes: seq<Node>)
    requires IsRefit(FourLeaves(), nodes, Leaves(10.0, 11.0))
    ensures Pruned(nodes, Leaves(10.0, 11.0), 0, PointBox(10.0)) == multiset{}
  {
    RefitLosesMovedLeaves();
    assert nodes[0].bounds == Refitted(FourLeaves(), Leaves(10.0, 11.0), 0);
  }

  method BuildFour() returns (tree: Tlas2)
    ensures fresh(tree) && tree.Shaped() && tree.nodes == FourLeaves() && tree.leaves == Leaves(0.0, 1.0)
  {
    tree := new Tlas2();
    tree.Rebuild(Leaves(0.0, 1.0));
    FourLeavesAreBuilt(tree.nodes);
  }

  method MoveAndRefit(tree: Tlas2)
    requires tree.Shaped() && tree.nodes == FourLeaves() && tree.leaves == Leaves(0.0, 1.0)
    modifies tree
    ensures tree.Shaped() && tree.leaves == Leaves(10.0, 11.0)
    ensures IsRefit(FourLeaves(), tree.nodes, tree.leaves)
  {
    tree.Refit(StatesOf(Leaves(10.0, 11.0)));
    assert tree.leaves == Leaves(10.0, 11.0);
  }

  /** Build, move two leaves, refit, and ask at the first leaf's new place: nothing is found. */
  method RefitThenQuery() returns (hits: seq<nat>)
    ensures hits == [] && 1 in Scan(Leaves(10.0, 11.0), PointBox(10.0))
  {
    var tree := BuildFour();
    MoveAndRefit(tree);
    RefitLeafBoxes(FourLeaves(), tree.nodes, tree.leaves);
    NothingFound(tree.nodes);
    hits := tree.CollectOverlaps(PointBox(10.0), []);
    assert |multiset(hits)| == |hits|;
    ScanFindsFirst();
  }

  lemma ScanFindsFirst()
    ensures 1 in Scan(Leaves(10.0, 11.0), PointBox(10.0))
  {
    var leaves := Leaves(10.0, 11.0);
    assert leaves[..3][..2] == leaves[..2] && leaves[..2][..1] == leaves[..1] && leaves[..1][..0] == [];
    assert leaves[..1] == [PointLeaf(10.0, 1)];
    assert Scan(leaves[..1], PointBox(10.0)) == [1];
  }
}
