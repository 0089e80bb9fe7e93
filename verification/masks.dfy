/** Collision categories and the bit masks that encode them. */
module Masks {
  import opened Prelude

  datatype Filter = Filter(category: string, collidesWith: seq<string>)

  datatype CollisionMask = CollisionMask(categoryBits: bv32, maskBits: bv32)

  datatype BuildError = TooManyCategories | MissingModel(name: string)

  /** The distinct names the filters mention. */
  ghost function Names(filters: seq<Filter>): set<string>
  {
    set i, n | 0 <= i < |filters| && n in NamesIn(filters[i]) :: n
  }

  function NamesIn(f: Filter): set<string>
  {
    {f.category} + Elements(f.collidesWith)
  }

  /** A name not met before gets the next free bit. */
  function Assign(bits: map<string, nat>, name: string): map<string, nat>
  {
    if name in bits then bits else bits[name := |bits|]
  }

  function AssignAll(bits: map<string, nat>, names: seq<string>): map<string, nat>
  {
    if names == [] then bits else Assign(AssignAll(bits, names[..|names| - 1]), names[|names| - 1])
  }

  function AssignFilter(bits: map<string, nat>, f: Filter): map<string, nat>
  {
    AssignAll(Assign(bits, f.category), f.collidesWith)
  }

  /** The bits after the first pass, were there no limit. */
  function BitsOf(filters: seq<Filter>): map<string, nat>
  {
    if filters == [] then map[] else AssignFilter(BitsOf(filters[..|filters| - 1]), filters[|filters| - 1])
  }

  /** One bit per name, without gaps. */
  ghost predicate Dense(bits: map<string, nat>)
  {
    && (forall n :: n in bits ==> bits[n] < |bits|)
    && (forall m, n :: m in bits && n in bits && bits[m] == bits[n] ==> m == n)
  }

  lemma AssignKeeps(bits: map<string, nat>, name: string)
    requires Dense(bits)
    ensures Dense(Assign(bits, name))
  {
    if name !in bits {
      assert |bits[name := |bits|]| == |bits| + 1;
    }
  }

  function Elements(names: seq<string>): set<string>
  {
    if names == [] then {} else Elements(names[..|names| - 1]) + {names[|names| - 1]}
  }

  lemma {:induction false} ElementsGrow(names: seq<string>, k: nat)
    requires k <= |names|
    ensures Elements(names[..k]) <= Elements(names)
  {
    if k == |names| {
      assert names[..k] == names;
    } else {
      assert names[..|names| - 1][..k] == names[..k];
      ElementsGrow(names[..|names| - 1], k);
    }
  }

  lemma {:induction false} AssignAllKeeps(bits: map<string, nat>, names: seq<string>)
    requires Dense(bits)
    ensures Dense(AssignAll(bits, names))
  {
    if names != [] {
      AssignAllKeeps(bits, names[..|names| - 1]);
      AssignKeeps(AssignAll(bits, names[..|names| - 1]), names[|names| - 1]);
    }
  }

  lemma {:induction false} AssignAllKeys(bits: map<string, nat>, names: seq<string>)
    ensures AssignAll(bits, names).Keys == bits.Keys + Elements(names)
  {
    if names != [] {
      var front, last := names[..|names| - 1], names[|names| - 1];
      AssignAllKeys(bits, front);
      AssignKeys(AssignAll(bits, front), last);
    }
  }

  lemma AssignKeys(bits: map<string, nat>, name: string)
    ensures Assign(bits, name).Keys == bits.Keys + {name}
  {
    assert name !in bits ==> bits[name := |bits|].Keys == bits.Keys + {name};
  }

  lemma AssignFilterKeeps(bits: map<string, nat>, f: Filter)
    requires Dense(bits)
    ensures Dense(AssignFilter(bits, f))
    ensures AssignFilter(bits, f).Keys == bits.Keys + NamesIn(f)
  {
    AssignKeeps(bits, f.category);
    AssignAllKeeps(Assign(bits, f.category), f.collidesWith);
    AssignKeys(bits, f.category);
    AssignAllKeys(Assign(bits, f.category), f.collidesWith);
  }

  lemma NamesSnoc(filters: seq<Filter>)
    requires filters != []
    ensures Names(filters) == Names(filters[..|filters| - 1]) + NamesIn(filters[|filters| - 1])
  {
  }

  /** Bits number the distinct names one to one, without gaps. */
  lemma {:induction false} BitsAreABijection(filters: seq<Filter>)
    ensures Dense(BitsOf(filters)) && BitsOf(filters).Keys == Names(filters) && |BitsOf(filters)| == |Names(filters)|
  {
    if filters != [] {
      var n := |filters| - 1;
      BitsAreABijection(filters[..n]);
      AssignFilterKeeps(BitsOf(filters[..n]), filters[n]);
      NamesSnoc(filters);
    }
    assert |BitsOf(filters)| == |BitsOf(filters).Keys|;
  }

  lemma {:induction false} AssignAllGrows(bits: map<string, nat>, names: seq<string>, k: nat)
    requires k <= |names|
    ensures |bits| <= |AssignAll(bits, names[..k])| <= |AssignAll(bits, names)|
    decreases |names|
  {
    if k == |names| {
      assert names[..k] == names;
      if k > 0 {
        AssignAllGrows(bits, names[..k - 1], k - 1);
      }
    } else {
      AssignAllGrows(bits, names[..|names| - 1], k);
      assert names[..|names| - 1][..k] == names[..k];
    }
  }

  lemma {:induction false} BitsGrow(filters: seq<Filter>, k: nat)
    requires k <= |filters|
    ensures |BitsOf(filters[..k])| <= |BitsOf(filters)|
  {
    var n := |filters| - 1;
    if k == |filters| {
      assert filters[..k] == filters;
    } else {
      BitsGrow(filters[..n], k);
      assert filters[..n][..k] == filters[..k];
      AssignAllGrows(Assign(BitsOf(filters[..n]), filters[n].category), filters[n].collidesWith, 0);
    }
  }

  /** Every number in `bits` stays in `bits'`. */
  ghost predicate Extends(bits: map<string, nat>, bits': map<string, nat>)
  {
    forall n :: n in bits ==> n in bits' && bits'[n] == bits[n]
  }

  lemma {:induction false} AssignAllExtends(bits: map<string, nat>, names: seq<string>)
    ensures Extends(bits, AssignAll(bits, names))
  {
    if names != [] {
      AssignAllExtends(bits, names[..|names| - 1]);
    }
  }

  /** Later filters never renumber a name, so that names of earlier filters have the smaller numbers. */
  lemma {:induction false} BitsFollowFirstMention(filters: seq<Filter>, k: nat)
    requires k <= |filters|
    ensures Extends(BitsOf(filters[..k]), BitsOf(filters))
    ensures forall m, n :: m in Names(filters[..k]) && n in Names(filters) - Names(filters[..k]) ==>
              m in BitsOf(filters) && n in BitsOf(filters) && BitsOf(filters)[m] < BitsOf(filters)[n]
    decreases |filters|
  {
    BitsExtend(filters, k);
    BitsAreABijection(filters);
    BitsAreABijection(filters[..k]);
    LaterAreHigher(BitsOf(filters[..k]), BitsOf(filters));
  }

  lemma {:induction false} BitsExtend(filters: seq<Filter>, k: nat)
    requires k <= |filters|
    ensures Extends(BitsOf(filters[..k]), BitsOf(filters))
    decreases |filters|
  {
    if k == |filters| {
      assert filters[..k] == filters;
    } else {
      var n := |filters| - 1;
      BitsExtend(filters[..n], k);
      assert filters[..n][..k] == filters[..k];
      AssignAllExtends(Assign(BitsOf(filters[..n]), filters[n].category), filters[n].collidesWith);
    }
  }

  lemma {:induction false} EveryNumberIsTaken(bits: map<string, nat>, k: nat)
    requires Dense(bits) && k < |bits|
    ensures exists n :: n in bits && bits[n] == k
  {
    var taken := set n | n in bits :: bits[n];
    ImageIsAsLarge(bits, bits.Keys, taken);
    if k !in taken {
      BelowIsSmall(taken + {k}, |bits|);
    }
  }

  lemma {:induction false} ImageIsAsLarge(bits: map<string, nat>, names: set<string>, taken: set<nat>)
    requires Dense(bits) && names <= bits.Keys && taken == set n | n in names :: bits[n]
    ensures |taken| == |names|
    decreases |names|
  {
    if names != {} {
      var n :| n in names;
      var fewer := set m | m in names - {n} :: bits[m];
      ImageIsAsLarge(bits, names - {n}, fewer);
      assert taken == fewer + {bits[n]};
    }
  }

  lemma {:induction false} BelowIsSmall(numbers: set<nat>, limit: nat)
    requires forall k :: k in numbers ==> k < limit
    ensures |numbers| <= limit
    decreases limit
  {
    if limit > 0 {
      BelowIsSmall(numbers - {limit - 1}, limit - 1);
    } else {
      assert numbers == {};
    }
  }

  lemma LaterAreHigher(bits: map<string, nat>, bits': map<string, nat>)
    requires Dense(bits) && Dense(bits') && Extends(bits, bits')
    ensures forall m, n :: m in bits && n in bits'.Keys - bits.Keys ==> bits'[m] < bits'[n]
  {
    forall m, n | m in bits && n in bits'.Keys - bits.Keys ensures bits'[m] < bits'[n] {
      if bits'[n] < |bits| {
        EveryNumberIsTaken(bits, bits'[n]);
      }
    }
  }

  // ----- the encoding -----

  function Bit(k: nat): bv32
    requires k < 32
  {
    (1 as bv32) << k
  }

  lemma BitsMeetIffEqual(a: nat, b: nat)
    requires a < 32 && b < 32
    ensures Bit(a) & Bit(b) != 0 <==> a == b
  {
  }

  lemma UnionMeets(x: bv32, y: bv32, z: bv32)
    ensures (x | y) & z != 0 <==> x & z != 0 || y & z != 0
  {
  }

  lemma AddingABit(x: bv32, y: bv32, z: bv32, a: nat, b: nat)
    requires a < 32 && b < 32 && y == Bit(a) && z == Bit(b)
    ensures (x | y) & z != 0 <==> x & z != 0 || a == b
  {
    BitsMeetIffEqual(a, b);
    UnionMeets(x, y, z);
  }

  lemma ZeroMeetsNothing(x: bv32)
    ensures 0 & x == 0
  {
  }

  ghost predicate InRange(bits: map<string, nat>)
  {
    forall n :: n in bits ==> bits[n] < 32
  }

  function UnionOf(bits: map<string, nat>, names: seq<string>): bv32
    requires InRange(bits) && Elements(names) <= bits.Keys
  {
    if names == [] then 0
    else
      var front, last := names[..|names| - 1], names[|names| - 1];
      UnionOf(bits, front) | Bit(bits[last])
  }

  ghost function Numbers(bits: map<string, nat>, names: seq<string>): set<nat>
    requires Elements(names) <= bits.Keys
  {
    if names == [] then {} else Numbers(bits, names[..|names| - 1]) + {bits[names[|names| - 1]]}
  }

  lemma {:induction false} UnionHasNumbers(bits: map<string, nat>, names: seq<string>, k: nat, z: bv32)
    requires InRange(bits) && Elements(names) <= bits.Keys && k < 32 && z == Bit(k)
    ensures UnionOf(bits, names) & z != 0 <==> k in Numbers(bits, names)
  {
    if names == [] {
      ZeroMeetsNothing(z);
    } else {
      var front, last := names[..|names| - 1], names[|names| - 1];
      UnionHasNumbers(bits, front, k, z);
      AddingABit(UnionOf(bits, front), Bit(bits[last]), z, bits[last], k);
    }
  }

  lemma {:induction false} NumbersNameElements(bits: map<string, nat>, names: seq<string>, n: string)
    requires Dense(bits) && Elements(names) <= bits.Keys && n in bits
    ensures bits[n] in Numbers(bits, names) <==> n in names
  {
    if names != [] {
      NumbersNameElements(bits, names[..|names| - 1], n);
      assert names == names[..|names| - 1] + [names[|names| - 1]];
    }
  }

  /** With u the union of some names' bits and z the bit of name n: u meets z iff n is one of the names. */
  lemma UnionMeetsIffListed(bits: map<string, nat>, names: seq<string>, n: string, u: bv32, z: bv32)
    requires InRange(bits) && Dense(bits) && Elements(names) <= bits.Keys && n in bits
    requires u == UnionOf(bits, names) && z == Bit(bits[n])
    ensures u & z != 0 <==> n in names
  {
    UnionHasNumbers(bits, names, bits[n], z);
    NumbersNameElements(bits, names, n);
  }

  ghost predicate Encodes(bits: map<string, nat>, f: Filter, m: CollisionMask)
  {
    && InRange(bits) && NamesIn(f) <= bits.Keys
    && m.categoryBits == Bit(bits[f.category])
    && m.maskBits == UnionOf(bits, f.collidesWith)
  }

  ghost predicate Encoded(bits: map<string, nat>, filters: seq<Filter>, masks: seq<CollisionMask>)
  {
    |masks| == |filters| && forall i :: 0 <= i < |filters| ==> Encodes(bits, filters[i], masks[i])
  }

  /** Filter f sees filter g: f's mask meets g's category iff f lists that category. */
  ghost predicate Sees(f: Filter, m: CollisionMask, g: Filter, n: CollisionMask)
  {
    m.maskBits & n.categoryBits != 0 <==> g.category in f.collidesWith
  }

  ghost predicate SameCategory(f: Filter, m: CollisionMask, g: Filter, n: CollisionMask)
  {
    m.categoryBits & n.categoryBits != 0 <==> g.category == f.category
  }

  ghost predicate Faithful(filters: seq<Filter>, masks: seq<CollisionMask>)
  {
    && |masks| == |filters|
    && forall i, j :: 0 <= i < |filters| && 0 <= j < |filters| ==>
         Sees(filters[i], masks[i], filters[j], masks[j]) && SameCategory(filters[i], masks[i], filters[j], masks[j])
  }

  lemma PairIsFaithful(bits: map<string, nat>, f: Filter, m: CollisionMask, g: Filter, n: CollisionMask)
    requires Dense(bits) && Encodes(bits, f, m) && Encodes(bits, g, n)
    ensures Sees(f, m, g, n) && SameCategory(f, m, g, n)
  {
    UnionMeetsIffListed(bits, f.collidesWith, g.category, m.maskBits, n.categoryBits);
    BitsMeetIffEqual(bits[f.category], bits[g.category]);
  }

  /** For any two filters the encoded masks answer what the filters say. */
  lemma EncodingIsFaithful(bits: map<string, nat>, filters: seq<Filter>, masks: seq<CollisionMask>)
    requires Dense(bits) && Encoded(bits, filters, masks)
    ensures Faithful(filters, masks)
  {
    forall i, j | 0 <= i < |filters| && 0 <= j < |filters|
      ensures Sees(filters[i], masks[i], filters[j], masks[j]) && SameCategory(filters[i], masks[i], filters[j], masks[j])
    {
      PairIsFaithful(bits, filters[i], masks[i], filters[j], masks[j]);
    }
  }

  // ----- the two passes -----

  lemma NamesOfOne(filters: seq<Filter>, i: nat)
    requires i < |filters|
    ensures NamesIn(filters[i]) <= Names(filters)
  {
  }

  lemma EncodedNext(bits: map<string, nat>, filters: seq<Filter>, i: nat, masks: seq<CollisionMask>, m: CollisionMask)
    requires i < |filters| && Encoded(bits, filters[..i], masks) && Encodes(bits, filters[i], m)
    ensures Encoded(bits, filters[..i + 1], masks + [m])
  {
    var all := masks + [m];
    forall k | 0 <= k < |all| ensures Encodes(bits, filters[..i + 1][k], all[k]) {
      assert k < i ==> Encodes(bits, filters[..i][k], masks[k]);
    }
  }

  method TakeBit(bits: map<string, nat>, nextBit: nat, name: string) returns (r: Option<map<string, nat>>, nextBit': nat)
    requires nextBit == |bits| <= 32
    ensures r == if |Assign(bits, name)| <= 32 then Some(Assign(bits, name)) else None
    ensures r.Some? ==> nextBit' == |r.value|
  {
    nextBit' := nextBit;
    r := Some(bits);
    if name !in bits {
      if nextBit >= 32 { return None, nextBit'; }
      r := Some(bits[name := nextBit]);
      nextBit' := nextBit + 1;
    }
  }

  method TakeBits(f: Filter, bits: map<string, nat>, nextBit: nat) returns (r: Option<map<string, nat>>, nextBit': nat)
    requires nextBit == |bits| <= 32
    ensures r == if |AssignFilter(bits, f)| <= 32 then Some(AssignFilter(bits, f)) else None
    ensures r.Some? ==> nextBit' == |r.value|
  {
    ghost var named := Assign(bits, f.category);
    AssignAllGrows(named, f.collidesWith, 0);
    r, nextBit' := TakeBit(bits, nextBit, f.category);
    if r.None? { return; }
    for i := 0 to |f.collidesWith|
      invariant r == Some(AssignAll(named, f.collidesWith[..i])) && nextBit' == |r.value| <= 32
    {
      assert f.collidesWith[..i + 1][..i] == f.collidesWith[..i];
      AssignAllGrows(named, f.collidesWith, i + 1);
      r, nextBit' := TakeBit(r.value, nextBit', f.collidesWith[i]);
      if r.None? { return; }
    }
    assert f.collidesWith[..|f.collidesWith|] == f.collidesWith;
  }

  /** The first pass: bits in order of first mention, refused iff there are more than 32 names. */
  method NumberNames(filters: seq<Filter>) returns (r: Option<map<string, nat>>)
    ensures r == if |Names(filters)| <= 32 then Some(BitsOf(filters)) else None
    ensures r.Some? ==> InRange(r.value) && Dense(r.value) && r.value.Keys == Names(filters)
  {
    BitsAreABijection(filters);
    var bits: map<string, nat>, nextBit := map[], 0;
    for i := 0 to |filters|
      invariant bits == BitsOf(filters[..i]) && nextBit == |bits| <= 32
    {
      assert filters[..i + 1][..i] == filters[..i];
      BitsGrow(filters, i + 1);
      var next;
      next, nextBit := TakeBits(filters[i], bits, nextBit);
      if next.None? { return None; }
      bits := next.value;
    }
    assert filters[..|filters|] == filters;
    return Some(bits);
  }

  method MaskOf(names: seq<string>, bits: map<string, nat>) returns (mask: bv32)
    requires InRange(bits) && Elements(names) <= bits.Keys
    ensures mask == UnionOf(bits, names)
  {
    mask := 0;
    for i := 0 to |names|
      invariant Elements(names[..i]) <= bits.Keys && mask == UnionOf(bits, names[..i])
    {
      ElementsGrow(names, i + 1);
      assert names[..i + 1][..i] == names[..i];
      mask := mask | Bit(bits[names[i]]);
    }
    assert names[..|names|] == names;
  }

  method EncodeFilter(bits: map<string, nat>, f: Filter) returns (m: CollisionMask)
    requires InRange(bits) && NamesIn(f) <= bits.Keys
    ensures Encodes(bits, f, m)
  {
    var mask := MaskOf(f.collidesWith, bits);
    m := CollisionMask(Bit(bits[f.category]), mask);
  }

  /** `build_collision_masks`: faithful masks, or an error iff more than 32 distinct names are mentioned. */
  method BuildCollisionMasks(filters: seq<Filter>) returns (r: Result<seq<CollisionMask>, BuildError>)
    ensures r.Ok? <==> |Names(filters)| <= 32
    ensures r.Ok? ==> Encoded(BitsOf(filters), filters, r.value) && Faithful(filters, r.value)
    ensures r.Err? ==> r.error == TooManyCategories
  {
    var bits := NumberNames(filters);
    if bits.None? { return Err(TooManyCategories); }
    var masks := EncodeAll(bits.value, filters);
    r := Ok(masks);
    EncodingIsFaithful(bits.value, filters, r.value);
  }

  /** The second pass. */
  method EncodeAll(bits: map<string, nat>, filters: seq<Filter>) returns (masks: seq<CollisionMask>)
    requires InRange(bits) && Names(filters) <= bits.Keys
    ensures Encoded(bits, filters, masks)
  {
    masks := [];
    for i := 0 to |filters|
      invariant Encoded(bits, filters[..i], masks)
    {
      NamesOfOne(filters, i);
      var m := EncodeFilter(bits, filters[i]);
      EncodedNext(bits, filters, i, masks, m);
      masks := masks + [m];
    }
    assert filters[..|filters|] == filters;
  }
}
