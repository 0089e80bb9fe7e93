/** How the build splits its leaves: at the median of their centres, along the longer side of their box. */
module MedianSplits {
  import opened BvhSpec

  /** The coordinate of the leaf's centre on the splitting axis. */
  function Key(leaves: seq<Leaf>, k: int, byX: bool): real
  {
    if !(0 <= k < |leaves|) then 0.0
    else
      var b := leaves[k].state.bounds;
      if byX then (b.minX + b.maxX) * 0.5 else (b.minY + b.maxY) * 0.5
  }

  predicate LongerX(b: Box)
  {
    b.maxX - b.minX > b.maxY - b.minY
  }

  /** The box around a range of leaves. */
  function RangeBox(leaves: seq<Leaf>, range: seq<int>): Box
    requires range != []
  {
    var last := range[|range| - 1];
    var box := if 0 <= last < |leaves| then leaves[last].state.bounds else Box(0.0, 0.0, 0.0, 0.0);
    if |range| == 1 then box else Merge(RangeBox(leaves, range[..|range| - 1]), box)
  }

  /** No centre of the lower half lies beyond one of the upper half. */
  ghost predicate Separated(leaves: seq<Leaf>, lower: seq<int>, upper: seq<int>, byX: bool)
  {
    forall i, j :: 0 <= i < |lower| && 0 <= j < |upper| ==> Key(leaves, lower[i], byX) <= Key(leaves, upper[j], byX)
  }

  ghost predicate IsHalving(leaves: seq<Leaf>, range: seq<int>, lower: seq<int>, upper: seq<int>)
    requires range != []
  {
    && |lower| == |range| / 2 && |lower| + |upper| == |range|
    && multiset(range) == multiset(lower) + multiset(upper)
    && Separated(leaves, lower, upper, LongerX(RangeBox(leaves, range)))
  }

  /** The subtree at node lo splits its range at the median, and so do its children with their halves. */
  ghost predicate MedianSplit(nodes: seq<Node>, leaves: seq<Leaf>, lo: int, range: seq<int>)
    decreases |range|
  {
    && 0 <= lo && range != [] && lo + 2 * |range| - 1 <= |nodes|
    && if |range| == 1 then nodes[lo].leaf == range[0]
       else exists lower, upper :: SplitsInto(nodes, leaves, lo, range, lower, upper)
  }

  ghost predicate SplitsInto(nodes: seq<Node>, leaves: seq<Leaf>, lo: int, range: seq<int>, lower: seq<int>, upper: seq<int>)
    requires 0 <= lo < |nodes| && |range| > 1
    decreases |range|, 0
  {
    && IsHalving(leaves, range, lower, upper)
    && !nodes[lo].IsLeaf() && nodes[lo].left == lo + 1 && nodes[lo].right == lo + 2 * |lower|
    && MedianSplit(nodes, leaves, lo + 1, lower) && MedianSplit(nodes, leaves, lo + 2 * |lower|, upper)
  }

  lemma {:induction false} MedianFrame(nodes: seq<Node>, nodes': seq<Node>, leaves: seq<Leaf>, lo: int, range: seq<int>)
    requires MedianSplit(nodes, leaves, lo, range) && lo + 2 * |range| - 1 <= |nodes'|
    requires forall i :: lo <= i < lo + 2 * |range| - 1 ==> nodes'[i] == nodes[i]
    ensures MedianSplit(nodes', leaves, lo, range)
    decreases |range|
  {
    if |range| > 1 {
      var lower, upper :| SplitsInto(nodes, leaves, lo, range, lower, upper);
      MedianFrame(nodes, nodes', leaves, lo + 1, lower);
      MedianFrame(nodes, nodes', leaves, lo + 2 * |lower|, upper);
      assert SplitsInto(nodes', leaves, lo, range, lower, upper);
    }
  }

  lemma MedianJoin(children: seq<Node>, nodes: seq<Node>, leaves: seq<Leaf>, lo: int,
                   lower: seq<int>, upper: seq<int>, range: seq<int>)
    requires |range| > 1 && IsHalving(leaves, range, lower, upper)
    requires MedianSplit(children, leaves, lo + 1, lower) && MedianSplit(children, leaves, lo + 2 * |lower|, upper)
    requires 0 <= lo < |nodes| == |children| && nodes == children[lo := nodes[lo]] && !nodes[lo].IsLeaf()
    requires nodes[lo].left == lo + 1 && nodes[lo].right == lo + 2 * |lower|
    ensures MedianSplit(nodes, leaves, lo, range)
  {
    MedianFrame(children, nodes, leaves, lo + 1, lower);
    MedianFrame(children, nodes, leaves, lo + 2 * |lower|, upper);
    assert SplitsInto(nodes, leaves, lo, range, lower, upper);
  }
}
