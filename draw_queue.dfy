/**
  RenderDrawQueue (NativeRenderQueue.cpp): the opaque/cutout and transparent
  draw queues. `Add` appends one draw instance with a packed 32-bit sort key,
  the two sorts reorder the instances in place, and recording replays them
  in order, five commands per instance.
 */
module DrawQueue {
  import opened Wrappers
  import opened Scene
  import opened Gfx
  import opened Bits

  /** One queued draw: the sub-model, the model priority, the sort key, depth, shader id and pass index. */
  datatype DrawInstance = DrawInstance(
    subModel: SubModel,
    priority: nat,
    hash: nat,
    depth: int,
    shaderID: nat,
    passIndex: nat)

  /** The shader id: the pointer value of the shader truncated to 32 bits. */
  function ShaderId(shader: nat): (r: nat)
    ensures r < U32_MODULUS
    ensures shader < U32_MODULUS ==> r == shader
    ensures (shader - r) % U32_MODULUS == 0
  {
    ToU32(shader)
  }

  /**
    The packed sort key `(0 << 30) | (passPriority << 16) | (modelPriority << 8) | passIdx`
    of the instance, in uint32 arithmetic, from uint32 operands: the key is
    itself a uint32.
   */
  function SortHash(passPriority: nat, modelPriority: nat, passIdx: nat): (r: nat)
    requires passIdx < U32_MODULUS
    ensures r < U32_MODULUS
  {
    var high := BitOr(BitOr(ShiftLeft32(0, 30), ShiftLeft32(passPriority, 16)), ShiftLeft32(modelPriority, 8));
    Pow2Of32();
    BitOrBelow(ShiftLeft32(0, 30), ShiftLeft32(passPriority, 16), 32);
    BitOrBelow(BitOr(ShiftLeft32(0, 30), ShiftLeft32(passPriority, 16)), ShiftLeft32(modelPriority, 8), 32);
    BitOrBelow(high, passIdx, 32);
    BitOr(high, passIdx)
  }

  /** With every field inside its range the fields occupy disjoint bits, so the key is their weighted sum. */
  lemma SortHashPacked(passPriority: nat, modelPriority: nat, passIdx: nat)
    requires passPriority < 0x1_0000 && modelPriority < 0x100 && passIdx < 0x100
    ensures SortHash(passPriority, modelPriority, passIdx) == passPriority * 0x1_0000 + modelPriority * 0x100 + passIdx
  {
    assert Pow2(8) == 0x100;
    assert Pow2(16) == 0x1_0000;
    assert ShiftLeft32(0, 30) == 0;
    assert ShiftLeft32(passPriority, 16) == passPriority * 0x1_0000;
    assert ShiftLeft32(modelPriority, 8) == modelPriority * 0x100;
    BitOrDisjoint(passPriority, modelPriority * 0x100, 16);
    BitOrDisjoint(passPriority * 0x100 + modelPriority, passIdx, 8);
  }

  /** Within those ranges each field reads back from the key. */
  lemma SortHashFields(passPriority: nat, modelPriority: nat, passIdx: nat)
    requires passPriority < 0x1_0000 && modelPriority < 0x100 && passIdx < 0x100
    ensures SortHash(passPriority, modelPriority, passIdx) / 0x1_0000 == passPriority
    ensures (SortHash(passPriority, modelPriority, passIdx) / 0x100) % 0x100 == modelPriority
    ensures SortHash(passPriority, modelPriority, passIdx) % 0x100 == passIdx
  {
    SortHashPacked(passPriority, modelPriority, passIdx);
    var h := SortHash(passPriority, modelPriority, passIdx);
    DivMod65536(h, passPriority, modelPriority * 0x100 + passIdx);
    DivMod256(h, passPriority * 0x100 + modelPriority, passIdx);
    DivMod256(passPriority * 0x100 + modelPriority, passPriority, modelPriority);
  }

  /** Division by 2^8 read back from a quotient and an in-range remainder. */
  lemma DivMod256(x: nat, q: nat, r: nat)
    requires r < 0x100 && x == q * 0x100 + r
    ensures x / 0x100 == q && x % 0x100 == r
  {
  }

  /** Division by 2^16 read back from a quotient and an in-range remainder. */
  lemma DivMod65536(x: nat, q: nat, r: nat)
    requires r < 0x1_0000 && x == q * 0x1_0000 + r
    ensures x / 0x1_0000 == q && x % 0x1_0000 == r
  {
  }

  /**
    Within those ranges, comparing keys is comparing (pass priority, model
    priority, pass index) lexicographically.
   */
  lemma SortHashOrder(p1: nat, m1: nat, i1: nat, p2: nat, m2: nat, i2: nat)
    requires p1 < 0x1_0000 && m1 < 0x100 && i1 < 0x100
    requires p2 < 0x1_0000 && m2 < 0x100 && i2 < 0x100
    ensures SortHash(p1, m1, i1) < SortHash(p2, m2, i2) <==>
            (p1 < p2 || (p1 == p2 && (m1 < m2 || (m1 == m2 && i1 < i2))))
  {
    SortHashPacked(p1, m1, i1);
    SortHashPacked(p2, m2, i2);
  }

  // ----- The two comparators -----

  /** The comparator a sort uses. */
  datatype Order = OpaqueOrCutout | Transparent

  /**
    The tuple a comparator compares: `(hash, depth, shaderID)` for the opaque
    and cutout sort, `(priority, hash, -depth, shaderID)` for the transparent one.
   */
  function Key(o: Order, d: DrawInstance): (k: seq<int>)
    ensures |k| == KeyLength(o)
  {
    match o
    case OpaqueOrCutout => [d.hash, d.depth, d.shaderID]
    case Transparent => [d.priority, d.hash, -d.depth, d.shaderID]
  }

  function KeyLength(o: Order): nat {
    if o.OpaqueOrCutout? then 3 else 4
  }

  /** Lexicographic "less than" on tuples of integers, as `operator<` of std::tuple. */
  predicate LexLess(a: seq<int>, b: seq<int>)
    decreases |a|
  {
    |a| > 0 && |b| > 0 && (a[0] < b[0] || (a[0] == b[0] && LexLess(a[1..], b[1..])))
  }

  lemma {:induction false} LexIrreflexive(a: seq<int>)
    ensures !LexLess(a, a)
    decreases |a|
  {
    if |a| > 0 {
      LexIrreflexive(a[1..]);
    }
  }

  lemma {:induction false} LexTransitive(a: seq<int>, b: seq<int>, c: seq<int>)
    requires LexLess(a, b) && LexLess(b, c)
    ensures LexLess(a, c)
    decreases |a|
  {
    if a[0] == b[0] && b[0] == c[0] {
      LexTransitive(a[1..], b[1..], c[1..]);
    }
  }

  lemma {:induction false} LexTotal(a: seq<int>, b: seq<int>)
    requires |a| == |b|
    ensures LexLess(a, b) || LexLess(b, a) || a == b
    decreases |a|
  {
    if |a| > 0 && a[0] == b[0] {
      LexTotal(a[1..], b[1..]);
      if a[1..] == b[1..] {
        assert a == [a[0]] + a[1..] && b == [b[0]] + b[1..];
      }
    }
  }

  lemma LexAsymmetric(a: seq<int>, b: seq<int>)
    requires LexLess(a, b)
    ensures !LexLess(b, a)
  {
    if LexLess(b, a) {
      LexTransitive(a, b, a);
      LexIrreflexive(a);
    }
  }

  /** "Not less" is transitive on tuples of one length. */
  lemma LexNotLessTransitive(a: seq<int>, b: seq<int>, c: seq<int>)
    requires |a| == |b| == |c|
    requires !LexLess(b, a) && !LexLess(c, b)
    ensures !LexLess(c, a)
  {
    if LexLess(c, a) {
      LexTotal(a, b);
      if a != b {
        LexTransitive(c, a, b);
      }
    }
  }

  /** `operator<` on 3-tuples, spelled out. */
  lemma LexLess3(a0: int, a1: int, a2: int, b0: int, b1: int, b2: int)
    ensures LexLess([a0, a1, a2], [b0, b1, b2]) <==>
            a0 < b0 || (a0 == b0 && (a1 < b1 || (a1 == b1 && a2 < b2)))
  {
    assert [a2][1..] == [] && [b2][1..] == [];
    assert LexLess([a2], [b2]) <==> a2 < b2;
    assert [a1, a2][1..] == [a2] && [b1, b2][1..] == [b2];
    assert LexLess([a1, a2], [b1, b2]) <==> a1 < b1 || (a1 == b1 && a2 < b2);
    assert [a0, a1, a2][1..] == [a1, a2] && [b0, b1, b2][1..] == [b1, b2];
  }

  /** `operator<` on 4-tuples, spelled out. */
  lemma LexLess4(a0: int, a1: int, a2: int, a3: int, b0: int, b1: int, b2: int, b3: int)
    ensures LexLess([a0, a1, a2, a3], [b0, b1, b2, b3]) <==>
            a0 < b0 || (a0 == b0 && (a1 < b1 || (a1 == b1 && (a2 < b2 || (a2 == b2 && a3 < b3)))))
  {
    assert [a0, a1, a2, a3][1..] == [a1, a2, a3] && [b0, b1, b2, b3][1..] == [b1, b2, b3];
    LexLess3(a1, a2, a3, b1, b2, b3);
  }

  /** The strict order the comparator of `o` defines on instances. */
  predicate Less(o: Order, a: DrawInstance, b: DrawInstance) {
    LexLess(Key(o, a), Key(o, b))
  }

  /** What std::sort establishes: no element is less than the one before it. */
  predicate Sorted(o: Order, s: seq<DrawInstance>) {
    forall i :: 0 < i < |s| ==> !Less(o, s[i], s[i - 1])
  }

  // ----- A sort with std::sort's guarantees -----

  function Insert(o: Order, x: DrawInstance, s: seq<DrawInstance>): (r: seq<DrawInstance>)
    requires Sorted(o, s)
    ensures Sorted(o, r)
    ensures multiset(r) == multiset(s) + multiset{x}
    ensures |r| > 0 && (r[0] == x || (|s| > 0 && r[0] == s[0]))
  {
    if s == [] then [x]
    else if Less(o, s[0], x) then
      var t := Insert(o, x, s[1..]);
      InsertHead(o, x, s, t);
      [s[0]] + t
    else
      ConsSorted(o, x, s);
      [x] + s
  }

  /** The recursive step of Insert: the head stays in front of the insertion into the tail. */
  lemma InsertHead(o: Order, x: DrawInstance, s: seq<DrawInstance>, t: seq<DrawInstance>)
    requires |s| > 0 && Sorted(o, s) && Less(o, s[0], x)
    requires Sorted(o, t) && multiset(t) == multiset(s[1..]) + multiset{x}
    requires |t| > 0 && (t[0] == x || (|s| > 1 && t[0] == s[1]))
    ensures Sorted(o, [s[0]] + t)
    ensures multiset([s[0]] + t) == multiset(s) + multiset{x}
  {
    LexAsymmetric(Key(o, s[0]), Key(o, x));
    assert s == [s[0]] + s[1..];
    ConsSorted(o, s[0], t);
  }

  /** Putting an element no greater than the head in front of a sorted sequence keeps it sorted. */
  lemma ConsSorted(o: Order, a: DrawInstance, t: seq<DrawInstance>)
    requires Sorted(o, t) && (|t| > 0 ==> !Less(o, t[0], a))
    ensures Sorted(o, [a] + t)
  {
    var r := [a] + t;
    forall i | 0 < i < |r|
      ensures !Less(o, r[i], r[i - 1])
    {
      if i > 1 {
        assert r[i] == t[i - 1] && r[i - 1] == t[i - 2];
      }
    }
  }

  /**
    An insertion sort standing in for std::sort: its result is sorted under
    the comparator and a permutation of its input.
   */
  function InsertionSort(o: Order, s: seq<DrawInstance>): (r: seq<DrawInstance>)
    ensures Sorted(o, r)
    ensures multiset(r) == multiset(s)
  {
    if s == [] then []
    else
      assert s == [s[0]] + s[1..];
      Insert(o, s[0], InsertionSort(o, s[1..]))
  }

  // ----- What a sort determines -----

  /** The comparator's tuple of every instance, position by position. */
  function Keys(o: Order, s: seq<DrawInstance>): (ks: seq<seq<int>>)
    ensures |ks| == |s|
  {
    seq(|s|, i requires 0 <= i < |s| => Key(o, s[i]))
  }

  predicate LexSorted(ks: seq<seq<int>>) {
    forall i :: 0 < i < |ks| ==> !LexLess(ks[i], ks[i - 1])
  }

  predicate AllOfLength(ks: seq<seq<int>>, n: nat) {
    forall i :: 0 <= i < |ks| ==> |ks[i]| == n
  }

  lemma {:induction false} LexSortedAll(ks: seq<seq<int>>, n: nat, i: nat, j: nat)
    requires LexSorted(ks) && AllOfLength(ks, n) && i < j < |ks|
    ensures !LexLess(ks[j], ks[i])
    decreases j - i
  {
    if j > i + 1 {
      LexSortedAll(ks, n, i, j - 1);
      LexNotLessTransitive(ks[i], ks[j - 1], ks[j]);
    }
  }

  /** In a sorted sequence no element is less than any element before it. */
  lemma SortedAll(o: Order, s: seq<DrawInstance>, i: nat, j: nat)
    requires Sorted(o, s) && i < j < |s|
    ensures !Less(o, s[j], s[i])
  {
    var ks := Keys(o, s);
    assert LexSorted(ks) by {
      forall k | 0 < k < |ks| ensures !LexLess(ks[k], ks[k - 1]) {
        assert ks[k] == Key(o, s[k]) && ks[k - 1] == Key(o, s[k - 1]);
      }
    }
    LexSortedAll(ks, KeyLength(o), i, j);
  }

  lemma KeysAppend(o: Order, p: seq<DrawInstance>, q: seq<DrawInstance>)
    ensures Keys(o, p + q) == Keys(o, p) + Keys(o, q)
  {
  }

  /** Removing position j of b leaves the multiset of b without b[j]. */
  lemma RemoveAt(b: seq<DrawInstance>, j: nat)
    requires j < |b|
    ensures multiset(b[..j] + b[j + 1..]) == multiset(b) - multiset{b[j]}
  {
    assert b == b[..j] + [b[j]] + b[j + 1..];
  }

  /** Taking position j out of b takes b[j]'s tuple out of the tuples' multiset. */
  lemma KeysRemoveAt(o: Order, b: seq<DrawInstance>, j: nat)
    requires j < |b|
    ensures multiset(Keys(o, b)) == multiset(Keys(o, b[..j] + b[j + 1..])) + multiset{Key(o, b[j])}
  {
    assert b == b[..j] + [b[j]] + b[j + 1..];
    KeysAppend(o, b[..j] + [b[j]], b[j + 1..]);
    KeysAppend(o, b[..j], [b[j]]);
    KeysAppend(o, b[..j], b[j + 1..]);
  }

  /** Equal multisets of instances have equal multisets of keys. */
  lemma {:induction false} KeysMultiset(o: Order, a: seq<DrawInstance>, b: seq<DrawInstance>)
    requires multiset(a) == multiset(b)
    ensures multiset(Keys(o, a)) == multiset(Keys(o, b))
    decreases |a|
  {
    if a == [] {
      assert |multiset(b)| == 0;
    } else {
      var x := a[0];
      assert x in multiset(b);
      var j :| 0 <= j < |b| && b[j] == x;
      var rest := b[..j] + b[j + 1..];
      RemoveAt(b, j);
      assert a == [x] + a[1..];
      assert multiset(rest) == multiset(a[1..]);
      KeysMultiset(o, a[1..], rest);
      KeysRemoveAt(o, b, j);
      KeysRemoveAt(o, a, 0);
      assert a[..0] + a[1..] == a[1..];
    }
  }

  /** Two sorted non-empty sequences of tuples with the same elements start with the same tuple. */
  lemma SortedHeadsEqual(x: seq<seq<int>>, y: seq<seq<int>>, n: nat)
    requires LexSorted(x) && LexSorted(y) && AllOfLength(x, n) && AllOfLength(y, n)
    requires multiset(x) == multiset(y) && |x| > 0 && |y| > 0
    ensures x[0] == y[0]
  {
    assert x[0] in multiset(y) && y[0] in multiset(x);
    var i :| 0 <= i < |x| && x[i] == y[0];
    var j :| 0 <= j < |y| && y[j] == x[0];
    if i > 0 { LexSortedAll(x, n, 0, i); } else { LexIrreflexive(x[0]); }
    if j > 0 { LexSortedAll(y, n, 0, j); } else { LexIrreflexive(y[0]); }
    LexTotal(x[0], y[0]);
  }

  /** Two sorted sequences of tuples with the same elements are equal. */
  lemma {:induction false} SortedTuplesUnique(x: seq<seq<int>>, y: seq<seq<int>>, n: nat)
    requires LexSorted(x) && LexSorted(y) && AllOfLength(x, n) && AllOfLength(y, n)
    requires multiset(x) == multiset(y)
    ensures x == y
    decreases |x|
  {
    if x == [] {
      assert |multiset(y)| == 0;
    } else {
      assert |y| == |multiset(y)| == |x| > 0;
      SortedHeadsEqual(x, y, n);
      assert x == [x[0]] + x[1..] && y == [y[0]] + y[1..];
      calc {
        multiset(x[1..]);
        multiset(x) - multiset{x[0]};
        multiset(y) - multiset{y[0]};
        multiset(y[1..]);
      }
      SortedTuplesUnique(x[1..], y[1..], n);
    }
  }

  /**
    Any two sorted arrangements of the same instances agree on the
    comparator's tuple at every position: an unstable sort can only exchange
    instances whose tuples are equal.
   */
  lemma SortedKeysDetermined(o: Order, a: seq<DrawInstance>, b: seq<DrawInstance>)
    requires Sorted(o, a) && Sorted(o, b) && multiset(a) == multiset(b)
    ensures Keys(o, a) == Keys(o, b)
  {
    KeysMultiset(o, a, b);
    var ka, kb := Keys(o, a), Keys(o, b);
    forall k | 0 < k < |ka| ensures !LexLess(ka[k], ka[k - 1]) {
      assert ka[k] == Key(o, a[k]) && ka[k - 1] == Key(o, a[k - 1]);
    }
    forall k | 0 < k < |kb| ensures !LexLess(kb[k], kb[k - 1]) {
      assert kb[k] == Key(o, b[k]) && kb[k - 1] == Key(o, b[k - 1]);
    }
    SortedTuplesUnique(ka, kb, KeyLength(o));
  }

  /** No two different instances of `s` share a tuple. */
  predicate DistinctKeys(o: Order, s: seq<DrawInstance>) {
    forall x, y :: x in s && y in s && Key(o, x) == Key(o, y) ==> x == y
  }

  /** When the tuples are distinct, the sorted order is unique. */
  lemma SortedUnique(o: Order, a: seq<DrawInstance>, b: seq<DrawInstance>)
    requires Sorted(o, a) && Sorted(o, b) && multiset(a) == multiset(b)
    requires DistinctKeys(o, a)
    ensures a == b
  {
    SortedKeysDetermined(o, a, b);
    assert |a| == |multiset(a)| == |b|;
    forall k | 0 <= k < |a| ensures a[k] == b[k] {
      assert Keys(o, a)[k] == Keys(o, b)[k];
      assert b[k] in multiset(a);
    }
  }

  /**
    After the opaque sort the instances are in non-decreasing
    `(hash, depth, shaderID)` order: by hash, then front to back, then by shader.
   */
  lemma OpaqueOrder(s: seq<DrawInstance>, i: nat, j: nat)
    requires Sorted(OpaqueOrCutout, s) && i < j < |s|
    ensures s[i].hash <= s[j].hash
    ensures s[i].hash == s[j].hash ==> s[i].depth <= s[j].depth
    ensures s[i].hash == s[j].hash && s[i].depth == s[j].depth ==> s[i].shaderID <= s[j].shaderID
  {
    SortedAll(OpaqueOrCutout, s, i, j);
    LexLess3(s[j].hash, s[j].depth, s[j].shaderID, s[i].hash, s[i].depth, s[i].shaderID);
  }

  /**
    After the transparent sort the instances are in non-decreasing
    `(priority, hash, -depth, shaderID)` order: among equal priority and hash,
    depth does not increase (back to front).
   */
  lemma TransparentOrder(s: seq<DrawInstance>, i: nat, j: nat)
    requires Sorted(Transparent, s) && i < j < |s|
    ensures s[i].priority <= s[j].priority
    ensures s[i].priority == s[j].priority ==> s[i].hash <= s[j].hash
    ensures s[i].priority == s[j].priority && s[i].hash == s[j].hash ==> s[i].depth >= s[j].depth
    ensures s[i].priority == s[j].priority && s[i].hash == s[j].hash && s[i].depth == s[j].depth ==>
              s[i].shaderID <= s[j].shaderID
  {
    SortedAll(Transparent, s, i, j);
    LexLess4(s[j].priority, s[j].hash, -s[j].depth, s[j].shaderID, s[i].priority, s[i].hash, -s[i].depth, s[i].shaderID);
  }

  /**
    Three opaque instances with keys (10, depth 5), (10, depth 2) and
    (5, depth 9): whatever order they were added in, the opaque sort leaves
    them as [C, B, A].
   */
  lemma OpaqueSortExample(sub: SubModel, s: seq<DrawInstance>)
    requires var a, b, c := DrawInstance(sub, 0, 10, 5, 0, 0), DrawInstance(sub, 0, 10, 2, 0, 0), DrawInstance(sub, 0, 5, 9, 0, 0);
             Sorted(OpaqueOrCutout, s) && multiset(s) == multiset([a, b, c])
    ensures s == [DrawInstance(sub, 0, 5, 9, 0, 0), DrawInstance(sub, 0, 10, 2, 0, 0), DrawInstance(sub, 0, 10, 5, 0, 0)]
  {
    var a, b, c := DrawInstance(sub, 0, 10, 5, 0, 0), DrawInstance(sub, 0, 10, 2, 0, 0), DrawInstance(sub, 0, 5, 9, 0, 0);
    var want := [c, b, a];
    assert multiset(want) == multiset([a, b, c]);
    LexLess3(b.hash, b.depth, b.shaderID, c.hash, c.depth, c.shaderID);
    LexLess3(a.hash, a.depth, a.shaderID, b.hash, b.depth, b.shaderID);
    assert Sorted(OpaqueOrCutout, want);
    SortedUnique(OpaqueOrCutout, want, s);
  }

  /**
    Two transparent instances with equal priority and key at depths 3 and 7:
    the transparent sort puts the farther one (depth 7) first.
   */
  lemma TransparentSortExample(sub: SubModel, s: seq<DrawInstance>)
    requires var x, y := DrawInstance(sub, 0, 1, 3, 0, 0), DrawInstance(sub, 0, 1, 7, 0, 0);
             Sorted(Transparent, s) && multiset(s) == multiset([x, y])
    ensures s == [DrawInstance(sub, 0, 1, 7, 0, 0), DrawInstance(sub, 0, 1, 3, 0, 0)]
  {
    var x, y := DrawInstance(sub, 0, 1, 3, 0, 0), DrawInstance(sub, 0, 1, 7, 0, 0);
    var want := [y, x];
    assert multiset(want) == multiset([x, y]);
    LexLess4(x.priority, x.hash, -x.depth, x.shaderID, y.priority, y.hash, -y.depth, y.shaderID);
    assert Sorted(Transparent, want);
    SortedUnique(Transparent, want, s);
  }

  // ----- Recording -----

  /** The instance's pass index names a pass and a shader of its sub-model. */
  predicate Resolvable(d: DrawInstance) {
    d.passIndex < |d.subModel.passes| && d.passIndex < |d.subModel.shaders|
  }

  /** The pipeline-state lookup for one instance. */
  function InstancePsoKey(d: DrawInstance, renderPass: nat, subpass: nat): PsoKey
    requires Resolvable(d)
  {
    PsoKey(d.subModel.passes[d.passIndex], d.subModel.shaders[d.passIndex], d.subModel.inputAssembler, renderPass, subpass)
  }

  /**
    The five commands recorded for one instance: its pipeline state, the
    pass's material set, the sub-model's local set, its input assembler, and
    the draw.
   */
  function InstanceCommands(d: DrawInstance, renderPass: nat, subpass: nat, cache: PsoKey -> nat): (cs: seq<Command>)
    requires Resolvable(d)
    ensures |cs| == 5 && cs[4] == Command.Draw(d.subModel.inputAssembler)
  {
    var ia := d.subModel.inputAssembler;
    [ Command.BindPipelineState(cache(InstancePsoKey(d, renderPass, subpass))),
      Command.BindDescriptorSet(MaterialSet, Binding(d.subModel.passes[d.passIndex].descriptorSet, [])),
      Command.BindDescriptorSet(LocalSet, Binding(d.subModel.descriptorSet, [])),
      Command.BindInputAssembler(ia),
      Command.Draw(ia) ]
  }

  /** The commands recorded for `s`, instance after instance. */
  function DrawTrace(s: seq<DrawInstance>, renderPass: nat, subpass: nat, cache: PsoKey -> nat): seq<Command>
    requires forall d <- s :: Resolvable(d)
    decreases |s|
  {
    if s == [] then []
    else DrawTrace(s[..|s| - 1], renderPass, subpass, cache) + InstanceCommands(s[|s| - 1], renderPass, subpass, cache)
  }

  /** The replay records five commands per instance. */
  lemma {:induction false} DrawTraceLength(s: seq<DrawInstance>, renderPass: nat, subpass: nat, cache: PsoKey -> nat)
    requires forall d <- s :: Resolvable(d)
    ensures |DrawTrace(s, renderPass, subpass, cache)| == 5 * |s|
    decreases |s|
  {
    if s != [] {
      var init := s[..|s| - 1];
      assert forall d <- init :: d in s;
      DrawTraceLength(init, renderPass, subpass, cache);
    }
  }

  /**
    The state a draw of `d` must see: its pipeline state, material set,
    local set and input assembler bound, the global set left as it was.
   */
  function DrawState(d: DrawInstance, renderPass: nat, subpass: nat, cache: PsoKey -> nat, global: Option<Binding>): GpuState
    requires Resolvable(d)
  {
    GpuState(
      Some(cache(InstancePsoKey(d, renderPass, subpass))),
      global,
      Some(Binding(d.subModel.passes[d.passIndex].descriptorSet, [])),
      Some(Binding(d.subModel.descriptorSet, [])),
      Some(d.subModel.inputAssembler))
  }

  /** Replaying one instance's commands issues exactly its draw, in its state. */
  lemma InstanceDraws(d: DrawInstance, renderPass: nat, subpass: nat, cache: PsoKey -> nat, t: GpuState)
    requires Resolvable(d)
    ensures Draws(InstanceCommands(d, renderPass, subpass, cache), t) ==
            [DrawEvent(DrawState(d, renderPass, subpass, cache, t.global), Command.Draw(d.subModel.inputAssembler))]
    ensures Run(InstanceCommands(d, renderPass, subpass, cache), t).global == t.global
  {
    var cs := InstanceCommands(d, renderPass, subpass, cache);
    var t1 := Apply(t, cs[0]);
    var t2 := Apply(t1, cs[1]);
    var t3 := Apply(t2, cs[2]);
    var t4 := Apply(t3, cs[3]);
    assert t4 == DrawState(d, renderPass, subpass, cache, t.global).(global := t.global);
    var c4 := cs[4..];
    var c3 := cs[3..];
    var c2 := cs[2..];
    var c1 := cs[1..];
    assert c4[1..] == [] && c3[1..] == c4 && c2[1..] == c3 && c1[1..] == c2 && cs[1..] == c1;
    assert Draws(c4, t4) == [DrawEvent(t4, cs[4])] && Run(c4, t4) == t4;
    assert Draws(c3, t3) == Draws(c4, t4) && Run(c3, t3) == t4;
    assert Draws(c2, t2) == Draws(c3, t3) && Run(c2, t2) == t4;
    assert Draws(c1, t1) == Draws(c2, t2) && Run(c1, t1) == t4;
    assert Draws(cs, t) == Draws(c1, t1) && Run(cs, t) == t4;
  }

  /**
    Replaying the queue's trace issues one draw per instance, in queue order,
    each with exactly that instance's pipeline state, material set, local set
    and input assembler bound; the global set is never touched.
   */
  lemma {:induction false} DrawTraceMeaning(s: seq<DrawInstance>, renderPass: nat, subpass: nat, cache: PsoKey -> nat, st: GpuState)
    requires forall d <- s :: Resolvable(d)
    ensures |Draws(DrawTrace(s, renderPass, subpass, cache), st)| == |s|
    ensures forall k :: 0 <= k < |s| ==>
              Draws(DrawTrace(s, renderPass, subpass, cache), st)[k] ==
              DrawEvent(DrawState(s[k], renderPass, subpass, cache, st.global), Command.Draw(s[k].subModel.inputAssembler))
    ensures Run(DrawTrace(s, renderPass, subpass, cache), st).global == st.global
    decreases |s|
  {
    if s != [] {
      var init, last := s[..|s| - 1], s[|s| - 1];
      var pre := DrawTrace(init, renderPass, subpass, cache);
      DrawTraceMeaning(init, renderPass, subpass, cache, st);
      RunAppend(pre, InstanceCommands(last, renderPass, subpass, cache), st);
      InstanceDraws(last, renderPass, subpass, cache, Run(pre, st));
    }
  }

  /** Every instance binds its own pipeline state: one bind per instance, in order, none skipped. */
  lemma {:induction false} DrawTracePsoBinds(s: seq<DrawInstance>, renderPass: nat, subpass: nat, cache: PsoKey -> nat)
    requires forall d <- s :: Resolvable(d)
    ensures |PsoBinds(DrawTrace(s, renderPass, subpass, cache))| == |s|
    ensures forall k :: 0 <= k < |s| ==>
              PsoBinds(DrawTrace(s, renderPass, subpass, cache))[k] == cache(InstancePsoKey(s[k], renderPass, subpass))
    decreases |s|
  {
    if s != [] {
      var init, last := s[..|s| - 1], s[|s| - 1];
      var cs := InstanceCommands(last, renderPass, subpass, cache);
      DrawTracePsoBinds(init, renderPass, subpass, cache);
      PsoBindsAppend(DrawTrace(init, renderPass, subpass, cache), cs);
      var c4 := cs[4..];
      var c3 := cs[3..];
      var c2 := cs[2..];
      var c1 := cs[1..];
      assert c4[1..] == [] && c3[1..] == c4 && c2[1..] == c3 && c1[1..] == c2 && cs[1..] == c1;
      assert c3[0] == cs[3] && c2[0] == cs[2] && c1[0] == cs[1];
      assert PsoBinds(c4) == [];
      assert PsoBinds(c3) == [];
      assert PsoBinds(c2) == [];
      assert PsoBinds(c1) == [];
      assert PsoBinds(cs) == [cache(InstancePsoKey(last, renderPass, subpass))];
    }
  }

  // ----- The queue -----

  /** The draw queue: a vector of instances that `Add` appends to and the sorts reorder in place. */
  class RenderDrawQueue {
    var instances: seq<DrawInstance>

    /** Every queued instance resolves its pass and shader. */
    ghost predicate Valid()
      reads this
    {
      forall d <- instances :: Resolvable(d)
    }

    constructor ()
      ensures instances == [] && Valid()
    {
      instances := [];
    }

    /**
      Queue pass `passIdx` of sub-model `subModelIdx` of `model` at `depth`:
      one instance is appended and the queue is otherwise unchanged.
     */
    method Add(model: Model, depth: int, subModelIdx: nat, passIdx: nat)
      requires Valid()
      requires subModelIdx < |model.subModels|
      requires passIdx < U32_MODULUS
      requires passIdx < |model.subModels[subModelIdx].passes| && passIdx < |model.subModels[subModelIdx].shaders|
      modifies this
      ensures Valid()
      ensures |instances| == |old(instances)| + 1 && instances[..|old(instances)|] == old(instances)
      ensures var d, sub := instances[|old(instances)|], model.subModels[subModelIdx];
              d.subModel == sub && d.priority == model.priority && d.depth == depth && d.passIndex == passIdx &&
              d.shaderID == ShaderId(sub.shaders[passIdx]) &&
              d.hash == SortHash(ToU32(sub.passes[passIdx].priority), ToU32(sub.priority), passIdx)
    {
      var sub := model.subModels[subModelIdx];
      var pass := sub.passes[passIdx];
      var passPriority := ToU32(pass.priority);
      var modelPriority := ToU32(sub.priority);
      var shaderId := ShaderId(sub.shaders[passIdx]);
      var hash := SortHash(passPriority, modelPriority, passIdx);
      instances := instances + [DrawInstance(sub, model.priority, hash, depth, shaderId, passIdx)];
    }

    /** Sort by `(hash, depth, shaderID)`: a permutation of the queue in comparator order. */
    method SortOpaqueOrCutout()
      requires Valid()
      modifies this
      ensures Valid()
      ensures multiset(instances) == multiset(old(instances))
      ensures Sorted(OpaqueOrCutout, instances)
    {
      instances := InsertionSort(OpaqueOrCutout, instances);
      assert forall d <- instances :: d in multiset(old(instances));
    }

    /** Sort by `(priority, hash, -depth, shaderID)`: a permutation of the queue in comparator order. */
    method SortTransparent()
      requires Valid()
      modifies this
      ensures Valid()
      ensures multiset(instances) == multiset(old(instances))
      ensures Sorted(Transparent, instances)
    {
      instances := InsertionSort(Transparent, instances);
      assert forall d <- instances :: d in multiset(old(instances));
    }

    /** Record every instance, in queue order, five commands each; the queue is not changed. */
    method RecordCommandBuffer(renderPass: nat, cmdBuff: CommandBuffer, subpassIndex: nat, cache: PsoKey -> nat)
      requires Valid()
      modifies cmdBuff
      ensures cmdBuff.commands == old(cmdBuff.commands) + DrawTrace(instances, renderPass, subpassIndex, cache)
    {
      var i := 0;
      while i < |instances|
        invariant 0 <= i <= |instances|
        invariant cmdBuff.commands == old(cmdBuff.commands) + DrawTrace(instances[..i], renderPass, subpassIndex, cache)
      {
        var d := instances[i];
        assert d in instances;
        var sub := d.subModel;
        var ia := sub.inputAssembler;
        var pass := sub.passes[d.passIndex];
        var pso := cache(PsoKey(pass, sub.shaders[d.passIndex], ia, renderPass, subpassIndex));
        cmdBuff.BindPipelineState(pso);
        cmdBuff.BindDescriptorSet(MaterialSet, pass.descriptorSet, []);
        cmdBuff.BindDescriptorSet(LocalSet, sub.descriptorSet, []);
        cmdBuff.BindInputAssembler(ia);
        cmdBuff.Draw(ia);
        assert instances[..i + 1][..i] == instances[..i];
        i := i + 1;
      }
      assert instances[..i] == instances;
    }
  }
}
