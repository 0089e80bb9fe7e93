/** When queries after a refit still find everything: they need enclosure, not exact boxes. */
module RefitQueries {
  import opened BvhSpec
  import opened RefitSpec

  lemma InsideBoth(outer: Box, leaves: seq<Leaf>, xs: seq<int>, ys: seq<int>)
    ensures InsideAll(outer, leaves, xs + ys) <==> InsideAll(outer, leaves, xs) && InsideAll(outer, leaves, ys)
  {
    assert forall k :: k in xs || k in ys <==> k in xs + ys;
  }

  ghost predicate FindsAll(nodes: seq<Node>, leaves: seq<Leaf>, i: int)
  {
    forall q :: FindsAt(nodes, leaves, i, q)
  }

  function Corner(outer: Box, inner: Box): Box
  {
    if inner.minX < outer.minX || inner.minY < outer.minY
    then Box(inner.minX, inner.minY, inner.minX, inner.minY)
    else Box(inner.maxX, inner.maxY, inner.maxX, inner.maxY)
  }

  /** A corner that sticks out is a query that tells the two boxes apart. */
  lemma CornerSticksOut(outer: Box, inner: Box)
    requires Proper(inner) && !Contains(outer, inner)
    ensures Intersects(inner, Corner(outer, inner)) && !Intersects(outer, Corner(outer, inner))
  {
  }

  lemma {:induction false} ListedHit(leaves: seq<Leaf>, ks: seq<int>, k: int, q: Box)
    requires k in ks && IsHit(leaves, k, q)
    ensures Hits(leaves, ks, q) != multiset{}
  {
    if ks[|ks| - 1] == k {
      assert leaves[k].entityId in Hits(leaves, ks, q);
    } else {
      assert ks == ks[..|ks| - 1] + [ks[|ks| - 1]];
      ListedHit(leaves, ks[..|ks| - 1], k, q);
      assert Hits(leaves, ks[..|ks| - 1], q) <= Hits(leaves, ks, q);
    }
  }

  lemma CornerIsMissed(nodes: seq<Node>, leaves: seq<Leaf>, i: int, k: int)
    requires 0 <= i < |nodes| && k in LeavesBelow(nodes, i) && 0 <= k < |leaves| && Proper(leaves[k].state.bounds)
    requires !Contains(nodes[i].bounds, leaves[k].state.bounds)
    ensures !FindsAt(nodes, leaves, i, Corner(nodes[i].bounds, leaves[k].state.bounds))
  {
    var q := Corner(nodes[i].bounds, leaves[k].state.bounds);
    CornerSticksOut(nodes[i].bounds, leaves[k].state.bounds);
    ListedHit(leaves, LeavesBelow(nodes, i), k, q);
  }

  lemma CompleteCovers(nodes: seq<Node>, leaves: seq<Leaf>, i: int)
    requires 0 <= i < |nodes| && FindsAll(nodes, leaves, i)
    requires forall k :: k in LeavesBelow(nodes, i) ==> 0 <= k < |leaves| && Proper(leaves[k].state.bounds)
    ensures CoversAt(nodes, leaves, i)
  {
    forall k | k in LeavesBelow(nodes, i) ensures Contains(nodes[i].bounds, leaves[k].state.bounds) {
      if !Contains(nodes[i].bounds, leaves[k].state.bounds) {
        CornerIsMissed(nodes, leaves, i, k);
      }
    }
  }

  lemma PartsEqual(a: multiset<nat>, b: multiset<nat>, a': multiset<nat>, b': multiset<nat>)
    requires a <= a' && b <= b' && a + b == a' + b'
    ensures a == a' && b == b'
  {
    forall x ensures a[x] == a'[x] && b[x] == b'[x] {
      assert (a + b)[x] == (a' + b')[x];
    }
  }

  /** If the parent misses nothing, neither do its children. */
  lemma CompleteBelow(nodes: seq<Node>, leaves: seq<Leaf>, p: int)
    requires IsTree(nodes) && LeafBoxesOk(nodes, leaves) && 0 <= p < |nodes| && !nodes[p].IsLeaf() && FindsAll(nodes, leaves, p)
    ensures FindsAll(nodes, leaves, nodes[p].left) && FindsAll(nodes, leaves, nodes[p].right)
  {
    assert LinkAt(nodes, 0, |nodes|, p);
    var l, r := nodes[p].left, nodes[p].right;
    forall q ensures FindsAt(nodes, leaves, l, q) && FindsAt(nodes, leaves, r, q) {
      PrunedIsSound(nodes, leaves, l, q);
      PrunedIsSound(nodes, leaves, r, q);
      HitsConcat(leaves, LeavesBelow(nodes, l), LeavesBelow(nodes, r), q);
      assert FindsAt(nodes, leaves, p, q);
      if Intersects(nodes[p].bounds, q) {
        PartsEqual(Pruned(nodes, leaves, l, q), Pruned(nodes, leaves, r, q),
                   Hits(leaves, LeavesBelow(nodes, l), q), Hits(leaves, LeavesBelow(nodes, r), q));
      } else {
        PartsEqual(multiset{}, multiset{}, Hits(leaves, LeavesBelow(nodes, l), q), Hits(leaves, LeavesBelow(nodes, r), q));
      }
    }
  }

  lemma ParentOf(nodes: seq<Node>, i: int)
    requires IsTree(nodes) && 0 < i < |nodes|
    ensures var p := nodes[i].parent; 0 <= p < i && !nodes[p].IsLeaf() && (nodes[p].left == i || nodes[p].right == i)
  {
    assert LinkAt(nodes, 0, |nodes|, i);
  }

  lemma {:induction false} CompleteEverywhere(nodes: seq<Node>, leaves: seq<Leaf>, i: int)
    requires IsTree(nodes) && LeafBoxesOk(nodes, leaves) && FindsAll(nodes, leaves, 0) && 0 <= i < |nodes|
    ensures FindsAll(nodes, leaves, i)
  {
    if i > 0 {
      ParentOf(nodes, i);
      CompleteEverywhere(nodes, leaves, nodes[i].parent);
      CompleteBelow(nodes, leaves, nodes[i].parent);
    }
  }

  lemma {:induction false} LeavesInRange(nodes: seq<Node>, leaves: seq<Leaf>, i: int)
    requires IsTree(nodes) && LeafBoxesOk(nodes, leaves) && 0 <= i < |nodes|
    ensures forall k :: k in LeavesBelow(nodes, i) ==> 0 <= k < |leaves|
    decreases |nodes| - i
  {
    assert LinkAt(nodes, 0, |nodes|, i) && LeafBoxAt(nodes, leaves, i);
    if !nodes[i].IsLeaf() {
      LeavesInRange(nodes, leaves, nodes[i].left);
      LeavesInRange(nodes, leaves, nodes[i].right);
    }
  }

  /** All queries from the root are complete iff every box covers the leaves below it. */
  lemma CompleteIffCovering(nodes: seq<Node>, leaves: seq<Leaf>)
    requires IsTree(nodes) && LeafBoxesOk(nodes, leaves) && forall l :: l in leaves ==> Proper(l.state.bounds)
    ensures FindsAll(nodes, leaves, 0) <==> forall i :: 0 <= i < |nodes| ==> CoversAt(nodes, leaves, i)
  {
    if FindsAll(nodes, leaves, 0) {
      forall i | 0 <= i < |nodes| ensures CoversAt(nodes, leaves, i) {
        CompleteEverywhere(nodes, leaves, i);
        LeavesInRange(nodes, leaves, i);
        assert forall k :: 0 <= k < |leaves| ==> leaves[k] in leaves;
        CompleteCovers(nodes, leaves, i);
      }
    }
    if forall i :: 0 <= i < |nodes| ==> CoversAt(nodes, leaves, i) {
      forall q ensures FindsAt(nodes, leaves, 0, q) {
        CoveringIsComplete(nodes, leaves, 0, q);
      }
    }
  }

  // ----- after a refit -----

  /** The union of the leaf boxes below a node is the least box that contains them. */
  lemma {:induction false} TrueBoxIsLeast(nodes: seq<Node>, leaves: seq<Leaf>, i: int, outer: Box)
    requires IsTree(nodes) && 0 <= i < |nodes|
    requires forall j :: 0 <= j < |nodes| && nodes[j].IsLeaf() ==> 0 <= nodes[j].leaf < |leaves|
    ensures Contains(outer, TrueBox(nodes, leaves, i))
            <==> InsideAll(outer, leaves, LeavesBelow(nodes, i))
    decreases |nodes| - i
  {
    assert LinkAt(nodes, 0, |nodes|, i);
    if !nodes[i].IsLeaf() {
      var l, r := nodes[i].left, nodes[i].right;
      TrueBoxIsLeast(nodes, leaves, l, outer);
      TrueBoxIsLeast(nodes, leaves, r, outer);
      MergeIsLeast(TrueBox(nodes, leaves, l), TrueBox(nodes, leaves, r), outer);
      InsideBoth(outer, leaves, LeavesBelow(nodes, l), LeavesBelow(nodes, r));
      assert LeavesBelow(nodes, i) == LeavesBelow(nodes, l) + LeavesBelow(nodes, r);
    } else {
      assert LeavesBelow(nodes, i) == [nodes[i].leaf];
    }
  }

  ghost predicate RefitCovers(nodes: seq<Node>, leaves: seq<Leaf>, i: int)
    requires IsTree(nodes) && 0 <= i < |nodes|
  {
    Contains(Refitted(nodes, leaves, i), TrueBox(nodes, leaves, i))
  }

  /** If the first child of inner node i lags, the node's refitted box contains the child's leaves all the same. */
  ghost predicate LagFits(nodes: seq<Node>, leaves: seq<Leaf>, i: int)
    requires IsTree(nodes) && 0 <= i < |nodes|
  {
    !nodes[i].IsLeaf() ==>
      (assert LinkAt(nodes, 0, |nodes|, i);
       var c := FirstChild(nodes, i);
       Lags(nodes, i, c) ==> Contains(Refitted(nodes, leaves, i), TrueBox(nodes, leaves, c)))
  }

  lemma ContainsTrans(a: Box, b: Box, c: Box)
    requires Contains(a, b) && Contains(b, c)
    ensures Contains(a, c)
  {
  }

  lemma ChildFits(nodes: seq<Node>, leaves: seq<Leaf>, i: int, c: int)
    requires IsTree(nodes) && 0 <= i < |nodes| && !nodes[i].IsLeaf() && (c == nodes[i].left || c == nodes[i].right)
    requires 0 <= c < |nodes| && LagFits(nodes, leaves, i) && RefitCovers(nodes, leaves, c)
    ensures Contains(Refitted(nodes, leaves, i), TrueBox(nodes, leaves, c))
  {
    assert LinkAt(nodes, 0, |nodes|, i);
    if !Lags(nodes, i, c) {
      ContainsTrans(Refitted(nodes, leaves, i), Refitted(nodes, leaves, c), TrueBox(nodes, leaves, c));
    }
  }

  lemma {:induction false} FittingCovers(nodes: seq<Node>, leaves: seq<Leaf>, i: int)
    requires IsTree(nodes) && 0 <= i < |nodes| && forall j :: 0 <= j < |nodes| ==> LagFits(nodes, leaves, j)
    ensures RefitCovers(nodes, leaves, i)
    decreases |nodes| - i
  {
    assert LinkAt(nodes, 0, |nodes|, i) && LagFits(nodes, leaves, i);
    if !nodes[i].IsLeaf() {
      var l, r := nodes[i].left, nodes[i].right;
      FittingCovers(nodes, leaves, l);
      FittingCovers(nodes, leaves, r);
      ChildFits(nodes, leaves, i, l);
      ChildFits(nodes, leaves, i, r);
      MergeIsLeast(TrueBox(nodes, leaves, l), TrueBox(nodes, leaves, r), Refitted(nodes, leaves, i));
    }
  }

  lemma CoveringFits(nodes: seq<Node>, leaves: seq<Leaf>, i: int)
    requires IsTree(nodes) && 0 <= i < |nodes| && RefitCovers(nodes, leaves, i)
    ensures LagFits(nodes, leaves, i)
  {
    assert LinkAt(nodes, 0, |nodes|, i);
    if !nodes[i].IsLeaf() {
      ContainsTrans(Refitted(nodes, leaves, i), TrueBox(nodes, leaves, i), TrueBox(nodes, leaves, FirstChild(nodes, i)));
    }
  }

  lemma RefitLeafBoxes(before: seq<Node>, nodes: seq<Node>, leaves: seq<Leaf>)
    requires IsRefit(before, nodes, leaves)
    ensures LeafBoxesOk(nodes, leaves)
  {
    forall i | 0 <= i < |nodes| ensures LeafBoxAt(nodes, leaves, i) {
      assert nodes[i] == before[i].(bounds := Refitted(before, leaves, i));
    }
  }

  lemma RefitCoversIff(before: seq<Node>, nodes: seq<Node>, leaves: seq<Leaf>, i: int)
    requires IsRefit(before, nodes, leaves) && 0 <= i < |nodes|
    ensures CoversAt(nodes, leaves, i) <==> RefitCovers(before, leaves, i)
  {
    assert nodes[i] == before[i].(bounds := Refitted(before, leaves, i));
    LeavesBelowFrame(before, nodes, 0, |nodes|, INVALID, i);
    TrueBoxIsLeast(before, leaves, i, nodes[i].bounds);
  }

  /**
   After a refit every query is complete iff each node whose first child lags contains that child's leaves, through
   the child's old box or by chance.
   */
  lemma RefitAnswersIff(before: seq<Node>, nodes: seq<Node>, leaves: seq<Leaf>)
    requires IsRefit(before, nodes, leaves) && forall l :: l in leaves ==> Proper(l.state.bounds)
    ensures FindsAll(nodes, leaves, 0) <==> forall i :: 0 <= i < |before| ==> LagFits(before, leaves, i)
  {
    RefitLeafBoxes(before, nodes, leaves);
    CompleteIffCovering(nodes, leaves);
    if FindsAll(nodes, leaves, 0) {
      forall i | 0 <= i < |before| ensures LagFits(before, leaves, i) {
        assert CoversAt(nodes, leaves, i);
        RefitCoversIff(before, nodes, leaves, i);
        CoveringFits(before, leaves, i);
      }
    }
    if forall i :: 0 <= i < |before| ==> LagFits(before, leaves, i) {
      forall i | 0 <= i < |nodes| ensures CoversAt(nodes, leaves, i) {
        FittingCovers(before, leaves, i);
        RefitCoversIff(before, nodes, leaves, i);
      }
    }
  }

  /** In terms of a linear scan, for a tree over all leaves. */
  lemma RefitScansIff(before: seq<Node>, nodes: seq<Node>, leaves: seq<Leaf>)
    requires IsRefit(before, nodes, leaves) && forall l :: l in leaves ==> Proper(l.state.bounds)
    requires multiset(LeavesBelow(nodes, 0)) == multiset(Iota(|leaves|))
    ensures (forall q :: ScansAt(nodes, leaves, q))
            <==> forall i :: 0 <= i < |before| ==> LagFits(before, leaves, i)
  {
    RefitAnswersIff(before, nodes, leaves);
    forall q ensures ScansAt(nodes, leaves, q) <==> FindsAt(nodes, leaves, 0, q) {
      AllHits(leaves, LeavesBelow(nodes, 0), q);
    }
    if forall q :: ScansAt(nodes, leaves, q) {
      forall q ensures FindsAt(nodes, leaves, 0, q) {
        assert ScansAt(nodes, leaves, q);
      }
    }
    if FindsAll(nodes, leaves, 0) {
      forall q ensures ScansAt(nodes, leaves, q) {
        assert FindsAt(nodes, leaves, 0, q);
      }
    }
  }

  /** A query from the root reports what a linear scan reports. */
  ghost predicate ScansAt(nodes: seq<Node>, leaves: seq<Leaf>, q: Box)
  {
    Pruned(nodes, leaves, 0, q) == multiset(Scan(leaves, q))
  }
}
