/** Datatypes and sequence vocabulary shared by the other modules. */
module Prelude {

  datatype Option<+T> = None | Some(value: T)

  datatype Result<+T, +E> = Ok(value: T) | Err(error: E)

  /** The index of the first element that satisfies p. */
  function First<T>(xs: seq<T>, p: T -> bool): (r: Option<nat>)
    ensures r.Some? ==> r.value < |xs| && p(xs[r.value]) && forall j :: 0 <= j < r.value ==> !p(xs[j])
    ensures r.None? ==> forall j :: 0 <= j < |xs| ==> !p(xs[j])
  {
    if xs == [] then None
    else if p(xs[0]) then Some(0)
    else match First(xs[1..], p)
      case None =>
        assert forall j :: 1 <= j < |xs| ==> xs[j] == xs[1..][j - 1];
        None
      case Some(i) =>
        assert forall j :: 1 <= j < |xs| ==> xs[j] == xs[1..][j - 1];
        Some(i + 1)
  }

  /** The elements that satisfy p, in their original order. */
  function Filter<T>(xs: seq<T>, p: T -> bool): (r: seq<T>)
    ensures forall x :: x in r ==> x in xs && p(x)
    ensures forall x :: x in xs && p(x) ==> x in r
    ensures |r| <= |xs|
    ensures |r| == |xs| ==> r == xs
  {
    if xs == [] then []
    else if p(xs[0]) then [xs[0]] + Filter(xs[1..], p)
    else Filter(xs[1..], p)
  }

  /** `at` lists, in increasing order, all positions where p holds, and `kept` what stands there. */
  ghost predicate ArePositions<T>(xs: seq<T>, p: T -> bool, kept: seq<T>, at: seq<nat>)
  {
    && |at| == |kept|
    && (forall k :: 0 <= k < |at| ==> at[k] < |xs| && xs[at[k]] == kept[k])
    && (forall j, k :: 0 <= j < k < |at| ==> at[j] < at[k])
    && (forall i: nat :: i < |xs| && p(xs[i]) ==> i in at)
  }

  function Successors(at: seq<nat>): seq<nat>
  {
    seq(|at|, k requires 0 <= k < |at| => at[k] + 1)
  }

  lemma SuccessorsCover(at: seq<nat>, i: nat)
    requires i in at
    ensures i + 1 in Successors(at)
  {
    var k :| 0 <= k < |at| && at[k] == i;
    assert Successors(at)[k] == i + 1;
  }

  lemma PositionsShift<T>(x: T, xs: seq<T>, p: T -> bool, kept: seq<T>, at: seq<nat>)
    requires ArePositions(xs, p, kept, at) && !p(x)
    ensures ArePositions([x] + xs, p, kept, Successors(at))
  {
    var all := [x] + xs;
    forall i: nat | i < |all| && p(all[i]) ensures i in Successors(at) {
      SuccessorsCover(at, i - 1);
    }
  }

  lemma PositionsGrow<T>(x: T, xs: seq<T>, p: T -> bool, kept: seq<T>, at: seq<nat>)
    requires ArePositions(xs, p, kept, at)
    ensures ArePositions([x] + xs, p, [x] + kept, [0] + Successors(at))
  {
    var all, more := [x] + xs, [0] + Successors(at);
    forall k | 0 <= k < |more| ensures more[k] < |all| && all[more[k]] == ([x] + kept)[k] {
      if k > 0 { assert more[k] == at[k - 1] + 1; }
    }
    forall i: nat | i < |all| && p(all[i]) ensures i in more {
      if i > 0 { SuccessorsCover(at, i - 1); }
    }
  }

  lemma {:induction false} FilterPositions<T>(xs: seq<T>, p: T -> bool) returns (at: seq<nat>)
    ensures ArePositions(xs, p, Filter(xs, p), at)
  {
    if xs == [] { return []; }
    var rest := FilterPositions(xs[1..], p);
    assert xs == [xs[0]] + xs[1..];
    if p(xs[0]) {
      PositionsGrow(xs[0], xs[1..], p, Filter(xs[1..], p), rest);
      at := [0] + Successors(rest);
    } else {
      PositionsShift(xs[0], xs[1..], p, Filter(xs[1..], p), rest);
      at := Successors(rest);
    }
  }

  function Flatten<T>(xss: seq<seq<T>>): seq<T>
  {
    if xss == [] then [] else Flatten(xss[..|xss| - 1]) + xss[|xss| - 1]
  }

  lemma FlattenSnoc<T>(xss: seq<seq<T>>, xs: seq<T>)
    ensures Flatten(xss + [xs]) == Flatten(xss) + xs
  {
    assert (xss + [xs])[..|xss|] == xss;
  }

  ghost predicate IsSuffix<T>(xs: seq<T>, ys: seq<T>)
  {
    |xs| <= |ys| && xs == ys[|ys| - |xs|..]
  }
}
