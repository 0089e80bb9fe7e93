/** Cutting a demonstration sequence into training windows of equal length. */
module Windows {

  function CeilDiv(a: nat, b: nat): nat
    requires b > 0
  {
    (a + b - 1) / b
  }

  /** The multiples of stride in 0..last, in order. */
  function Grid(last: nat, stride: nat): (r: seq<nat>)
    requires stride > 0
    ensures |r| == last / stride + 1
    ensures forall i :: 0 <= i < |r| ==> r[i] == i * stride
  {
    seq(last / stride + 1, i requires 0 <= i => i * stride)
  }

  /** The start positions: the grid, and the last possible start if the grid misses it. */
  function Starts(last: nat, stride: nat): seq<nat>
    requires stride > 0
  {
    if last / stride * stride == last then Grid(last, stride) else Grid(last, stride) + [last]
  }

  predicate Covers(start: nat, length: nat, x: nat)
  {
    start <= x < start + length
  }

  lemma DivMod(a: nat, b: nat)
    requires b > 0
    ensures a == a / b * b + a % b && 0 <= a % b < b && a / b >= 0
  {
  }

  lemma {:induction false} MulMono(i: nat, j: nat, b: nat)
    requires i <= j
    ensures i * b <= j * b
    ensures i < j ==> i * b + b <= j * b
  {
    assert j * b == i * b + (j - i) * b;
    if i < j {
      assert (j - i) * b == b + (j - i - 1) * b;
    }
  }

  lemma CeilDivExact(a: nat, b: nat, q: nat)
    requires b > 0
    ensures q * b == a ==> CeilDiv(a, b) == q
    ensures q * b < a <= q * b + b ==> CeilDiv(a, b) == q + 1
  {
    DivMod(a + b - 1, b);
    var c := CeilDiv(a, b);
    if q * b == a {
      if c < q { MulMono(c, q, b); }
      if c > q { MulMono(q, c, b); }
    }
    if q * b < a <= q * b + b {
      assert (q + 1) * b == q * b + b;
      if c < q + 1 { MulMono(c, q + 1, b); }
      if c > q + 1 { MulMono(q + 1, c, b); }
    }
  }

  lemma StartsCount(last: nat, stride: nat)
    requires stride > 0
    ensures |Starts(last, stride)| == CeilDiv(last, stride) + 1
  {
    DivMod(last, stride);
    CeilDivExact(last, stride, last / stride);
  }

  /** Starts run from 0 to the last possible one, strictly upwards, never more than a stride apart. */
  lemma StartsClimb(last: nat, stride: nat)
    requires stride > 0
    ensures var s := Starts(last, stride);
      && s[0] == 0 && s[|s| - 1] == last
      && forall i :: 0 <= i < |s| - 1 ==> s[i] < s[i + 1] <= s[i] + stride
  {
    var s := Starts(last, stride);
    DivMod(last, stride);
    forall i | 0 <= i < |s| - 1 ensures s[i] < s[i + 1] <= s[i] + stride {
      assert (i + 1) * stride == i * stride + stride;
    }
  }

  lemma {:induction false} StartsIncrease(last: nat, stride: nat, i: nat, j: nat)
    requires stride > 0 && i < j < |Starts(last, stride)|
    ensures Starts(last, stride)[i] < Starts(last, stride)[j]
    decreases j
  {
    StartsClimb(last, stride);
    if i < j - 1 {
      StartsIncrease(last, stride, i, j - 1);
    }
  }

  // ----- coverage -----

  lemma {:induction false} WindowAround(last: nat, stride: nat, length: nat, x: nat, k: nat) returns (i: nat)
    requires stride > 0 && (stride <= length || last <= length) && x < last + length
    requires k < |Starts(last, stride)| && Starts(last, stride)[k] <= x
    ensures i < |Starts(last, stride)| && Covers(Starts(last, stride)[i], length, x)
    decreases |Starts(last, stride)| - k
  {
    var s := Starts(last, stride);
    StartsClimb(last, stride);
    i := k;
    if k < |s| - 1 && s[k + 1] <= x {
      i := WindowAround(last, stride, length, x, k + 1);
    } else if k < |s| - 1 {
      if k + 1 < |s| - 1 {
        StartsIncrease(last, stride, k + 1, |s| - 1);
      }
    }
  }

  ghost predicate IsCovered(s: seq<nat>, length: nat, x: nat)
  {
    exists i :: 0 <= i < |s| && Covers(s[i], length, x)
  }

  /** Every index lies in some window iff the stride, or else the last start, does not exceed the length. */
  lemma CoverageIff(last: nat, stride: nat, length: nat)
    requires stride > 0 && length > 0 && last > 0
    ensures (forall x :: 0 <= x < last + length ==> IsCovered(Starts(last, stride), length, x))
            <==> stride <= length || last <= length
  {
    var s := Starts(last, stride);
    StartsClimb(last, stride);
    if stride <= length || last <= length {
      forall x | 0 <= x < last + length ensures IsCovered(s, length, x) {
        var i := WindowAround(last, stride, length, x, 0);
      }
    } else {
      forall i | 0 <= i < |s| ensures !Covers(s[i], length, length) {
        if i == 1 {
          SecondStart(last, stride);
        } else if i > 1 {
          SecondStart(last, stride);
          StartsIncrease(last, stride, 1, i);
        }
      }
      assert !IsCovered(s, length, length);
    }
  }

  lemma SecondStart(last: nat, stride: nat)
    requires stride > 0 && last > 0
    ensures |Starts(last, stride)| > 1 && Starts(last, stride)[1] == if stride <= last then stride else last
  {
    StartsClimb(last, stride);
    DivMod(last, stride);
    if stride <= last {
      assert last / stride >= 1;
      assert Grid(last, stride)[1] == 1 * stride;
    } else {
      assert last / stride == 0;
    }
  }

  // ----- multiplicity -----

  /** In how many of the windows index x lies. */
  function Multiplicity(starts: seq<nat>, length: nat, x: nat): nat
  {
    if starts == [] then 0
    else Multiplicity(starts[..|starts| - 1], length, x)
         + if Covers(starts[|starts| - 1], length, x) then 1 else 0
  }

  /** Only the starts lo..hi can count. */
  lemma {:induction false} MultiplicityWithin(starts: seq<nat>, length: nat, x: nat, lo: nat, hi: nat)
    requires lo <= hi
    requires forall i :: 0 <= i < |starts| && Covers(starts[i], length, x) ==> lo <= i < hi
    ensures Multiplicity(starts, length, x) <= hi - lo
    ensures |starts| <= lo ==> Multiplicity(starts, length, x) == 0
    ensures lo <= |starts| <= hi ==> Multiplicity(starts, length, x) <= |starts| - lo
  {
    if starts != [] {
      var n := |starts| - 1;
      forall i | 0 <= i < n && Covers(starts[..n][i], length, x) ensures lo <= i < hi {
        assert Covers(starts[i], length, x);
      }
      MultiplicityWithin(starts[..n], length, x, lo, hi);
    }
  }

  lemma {:induction false} GridMultiplicity(last: nat, stride: nat, length: nat, x: nat)
    requires stride > 0 && length > 0
    ensures Multiplicity(Grid(last, stride), length, x) <= CeilDiv(length, stride)
  {
    var hi := x / stride + 1;
    var lo := if x < length then 0 else (x - length) / stride + 1;
    BoundsApart(x, length, stride);
    var grid := Grid(last, stride);
    forall i | 0 <= i < |grid| && Covers(grid[i], length, x) ensures lo <= i < hi {
      GridIndexBounds(i, x, length, stride);
    }
    MultiplicityWithin(grid, length, x, lo, hi);
  }

  lemma GridIndexBounds(i: nat, x: nat, length: nat, stride: nat)
    requires stride > 0 && i * stride <= x < i * stride + length
    ensures i < x / stride + 1 && (x >= length ==> (x - length) / stride + 1 <= i)
  {
    DivMod(x, stride);
    if i > x / stride { MulMono(x / stride, i, stride); }
    if x >= length {
      DivMod(x - length, stride);
      if (x - length) / stride >= i { MulMono(i, (x - length) / stride, stride); }
    }
  }

  lemma BoundsApart(x: nat, length: nat, stride: nat)
    requires stride > 0 && length > 0
    ensures var lo := if x < length then 0 else (x - length) / stride + 1;
      lo <= x / stride + 1 <= lo + CeilDiv(length, stride)
  {
    var q := x / stride;
    DivMod(x, stride);
    DivMod(length + stride - 1, stride);
    var c := CeilDiv(length, stride);
    if x < length {
      if q + 1 > c { MulMono(c, q, stride); }
    } else {
      var p := (x - length) / stride;
      DivMod(x - length, stride);
      if p > q { MulMono(q, p, stride); }
      assert (p + c) * stride == p * stride + c * stride;
      if q > p + c { MulMono(p + c, q, stride); }
    }
  }

  /** No index lies in more than ceil(length / stride) + 1 windows. */
  lemma MultiplicityIsBounded(last: nat, stride: nat, length: nat, x: nat)
    requires stride > 0 && length > 0
    ensures Multiplicity(Starts(last, stride), length, x) <= CeilDiv(length, stride) + 1
  {
    GridMultiplicity(last, stride, length, x);
    if Starts(last, stride) != Grid(last, stride) {
      assert Starts(last, stride)[..|Grid(last, stride)|] == Grid(last, stride);
    }
  }

  // ----- the code -----

  /** Python's `range(0, last + 1, stride)`. */
  method Range(last: nat, stride: nat) returns (r: seq<nat>)
    requires stride > 0
    ensures r == Grid(last, stride)
  {
    r := [];
    var next := 0;
    while next < last + 1
      invariant next == |r| * stride && forall i :: 0 <= i < |r| ==> r[i] == i * stride
      invariant |r| <= last / stride + 1
      decreases last + 1 - next
    {
      DivMod(last, stride);
      if |r| == last / stride + 1 { MulMono(last / stride + 1, |r|, stride); }
      r := r + [next];
      next := next + stride;
    }
    DivMod(last, stride);
    if |r| <= last / stride { MulMono(|r|, last / stride, stride); }
  }

  ghost predicate IsWindow<O, A>(obs: seq<O>, actions: seq<A>, start: nat, length: nat, w: (seq<O>, seq<A>))
  {
    start + length <= |obs| == |actions| && w == (obs[start..start + length], actions[start..start + length])
  }

  /** `_sequence_windows`. Both arguments are positive: the program refuses other values before it gets here. */
  method SequenceWindows<O, A>(obs: seq<O>, actions: seq<A>, length: nat, stride: nat)
    returns (windows: seq<(seq<O>, seq<A>)>)
    requires |obs| == |actions| && length > 0 && stride > 0
    ensures obs == [] ==> windows == []
    ensures 0 < |obs| <= length ==> windows == [(obs, actions)]
    ensures |obs| > length ==>
      var s := Starts(|obs| - length, stride);
      |windows| == |s| && forall i :: 0 <= i < |s| ==> IsWindow(obs, actions, s[i], length, windows[i])
  {
    var total := |obs|;
    if total == 0 { return []; }
    if total <= length { return [(obs, actions)]; }
    var last := total - length;
    var starts := Range(last, stride);
    if starts[|starts| - 1] != last {
      starts := starts + [last];
    }
    windows := [];
    for i := 0 to |starts|
      invariant |windows| == i
      invariant forall k :: 0 <= k < i ==> IsWindow(obs, actions, starts[k], length, windows[k])
    {
      StartsClimb(last, stride);
      if i < |starts| - 1 { StartsIncrease(last, stride, i, |starts| - 1); }
      var start := starts[i];
      var end := start + length;
      windows := windows + [(obs[start..end], actions[start..end])];
    }
  }
}
