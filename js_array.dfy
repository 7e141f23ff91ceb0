/**
  The two JavaScript array operations the LOD component is built from:
  `Array.prototype.splice` (ECMAScript, section 23.1.3.31) and reading an
  element with `a[index]`, which yields `undefined` unless `index` is a
  position of the array. Indices are integers; a negative start counts back
  from the end.
 */
module JsArray {
  import opened Wrappers

  /**
    Where splice starts: a negative start is taken relative to the end, and
    the result is clamped into `[0, len]`.
   */
  function RelativeStart(len: nat, start: int): (k: nat)
    ensures k <= len
    ensures 0 <= start ==> k == if start <= len then start else len
    ensures start < 0 ==> k == if -start <= len then len + start else 0
  {
    if start < 0 then
      if len + start < 0 then 0 else len + start
    else if start > len then len
    else start
  }

  /** How many elements splice removes: `deleteCount` clamped into `[0, len - k]`. */
  function ActualDeleteCount(len: nat, k: nat, deleteCount: int): (d: nat)
    requires k <= len
    ensures k + d <= len
    ensures 0 <= deleteCount <= len - k ==> d == deleteCount
  {
    if deleteCount < 0 then 0
    else if deleteCount > len - k then len - k
    else deleteCount
  }

  /**
    `s.splice(start, deleteCount, ...items)` as the array it leaves behind:
    the elements before the start, then `items`, then what follows the
    removed elements.
   */
  function Splice<T>(s: seq<T>, start: int, deleteCount: int, items: seq<T>): (r: seq<T>)
    ensures |r| == |s| - ActualDeleteCount(|s|, RelativeStart(|s|, start), deleteCount) + |items|
  {
    var k := RelativeStart(|s|, start);
    var d := ActualDeleteCount(|s|, k, deleteCount);
    s[..k] + items + s[k + d..]
  }

  /** `s[index]`: the element at a position of the array, `undefined` (None) for any other index. */
  function At<T>(s: seq<T>, index: int): (r: Option<T>)
    ensures r.Some? <==> 0 <= index < |s|
    ensures r.Some? ==> r.value == s[index]
  {
    if 0 <= index < |s| then Some(s[index]) else None
  }

  /** `f` applied to every element, in order (how a parallel array is derived from its partner). */
  function Map<T, U>(f: T -> U, s: seq<T>): (r: seq<U>)
    ensures |r| == |s|
    ensures forall i :: 0 <= i < |s| ==> r[i] == f(s[i])
  {
    seq(|s|, i requires 0 <= i < |s| => f(s[i]))
  }

  /** Splicing commutes with mapping: two arrays kept parallel by the same splice stay parallel. */
  lemma SpliceMap<T, U>(f: T -> U, s: seq<T>, start: int, deleteCount: int, items: seq<T>)
    ensures Map(f, Splice(s, start, deleteCount, items)) == Splice(Map(f, s), start, deleteCount, Map(f, items))
  {
    var a := Map(f, Splice(s, start, deleteCount, items));
    var b := Splice(Map(f, s), start, deleteCount, Map(f, items));
    var k := RelativeStart(|s|, start);
    var d := ActualDeleteCount(|s|, k, deleteCount);
    assert Splice(s, start, deleteCount, items) == s[..k] + items + s[k + d..];
    assert b == Map(f, s)[..k] + Map(f, items) + Map(f, s)[k + d..];
    assert |a| == |b|;
    forall i | 0 <= i < |a|
      ensures a[i] == b[i]
    {
      if i >= k + |items| {
        assert a[i] == f(s[i - |items| + d]);
      }
    }
  }

  /** For a start inside the array, inserting one element puts it at that position and shifts the rest up. */
  lemma InsertAt<T>(s: seq<T>, index: int, x: T)
    requires 0 <= index <= |s|
    ensures var r := Splice(s, index, 0, [x]);
            |r| == |s| + 1 && At(r, index) == Some(x) &&
            r[..index] == s[..index] && r[index + 1..] == s[index..]
  {
    var r := Splice(s, index, 0, [x]);
    assert r == s[..index] + [x] + s[index..];
  }

  /** For a position of the array, deleting one element removes exactly that one. */
  lemma RemoveAt<T>(s: seq<T>, index: int)
    requires 0 <= index < |s|
    ensures var r := Splice(s, index, 1, []);
            |r| == |s| - 1 && r[..index] == s[..index] && r[index..] == s[index + 1..]
  {
    var r := Splice(s, index, 1, []);
    assert r == s[..index] + s[index + 1..];
  }

  /** Inserting at a position inside the array and then deleting at the same position restores the array. */
  lemma InsertRemoveRoundTrip<T>(s: seq<T>, index: int, x: T)
    requires 0 <= index <= |s|
    ensures Splice(Splice(s, index, 0, [x]), index, 1, []) == s
  {
    InsertAt(s, index, x);
    var r := Splice(s, index, 0, [x]);
    RemoveAt(r, index);
    assert s == s[..index] + s[index..];
  }

  /** With start -1 and a non-empty array, an inserted element lands in front of the last one, not after it. */
  lemma InsertMinusOne<T>(s: seq<T>, x: T)
    requires |s| > 0
    ensures Splice(s, -1, 0, [x]) == s[..|s| - 1] + [x, s[|s| - 1]]
    ensures x != s[|s| - 1] ==> Splice(s, -1, 0, [x]) != s + [x]
  {
    var r := Splice(s, -1, 0, [x]);
    assert r == s[..|s| - 1] + [x] + s[|s| - 1..];
    assert s[|s| - 1..] == [s[|s| - 1]];
    if x != s[|s| - 1] {
      assert r[|s|] != (s + [x])[|s|];
    }
  }

  /** With start -1 the last element is the one deleted, yet reading index -1 yields `undefined`. */
  lemma DeleteMinusOne<T>(s: seq<T>)
    requires |s| > 0
    ensures Splice(s, -1, 1, []) == s[..|s| - 1]
    ensures At(s, -1) == None
  {
  }

  /**
    Insertion as the documentation describes it: index -1 appends at the
    tail, any other index splices as before.
   */
  function InsertIntended<T>(s: seq<T>, index: int, x: T): (r: seq<T>)
    ensures index == -1 ==> r == s + [x]
    ensures index != -1 ==> r == Splice(s, index, 0, [x])
  {
    if index == -1 then s + [x] else Splice(s, index, 0, [x])
  }

  /** Under the intended insertion, -1 puts the element last and keeps everything else in order. */
  lemma InsertIntendedAppends<T>(s: seq<T>, x: T)
    ensures var r := InsertIntended(s, -1, x);
            |r| == |s| + 1 && At(r, |r| - 1) == Some(x) && r[..|s|] == s
  {
  }

  /**
    The element a one-element splice at `index` removes, when there is one:
    what a delete documented to return "the element deleted" should return.
   */
  function DeletedElement<T>(s: seq<T>, index: int): (r: Option<T>)
    ensures r.Some? <==> RelativeStart(|s|, index) < |s|
    ensures r.Some? ==> Splice(s, index, 1, []) == s[..RelativeStart(|s|, index)] + s[RelativeStart(|s|, index) + 1..] &&
                        r.value == s[RelativeStart(|s|, index)]
  {
    var k := RelativeStart(|s|, index);
    if k < |s| then Some(s[k]) else None
  }

  /** The intended result of deleting at -1 is the last element, which is the one removed. */
  lemma DeletedElementMinusOne<T>(s: seq<T>)
    requires |s| > 0
    ensures DeletedElement(s, -1) == Some(s[|s| - 1])
    ensures Splice(s, -1, 1, []) + [s[|s| - 1]] == s
  {
    assert s == s[..|s| - 1] + [s[|s| - 1]];
  }

  /** For a position of the array the intended result agrees with reading that position. */
  lemma DeletedElementAt<T>(s: seq<T>, index: int)
    requires 0 <= index < |s|
    ensures DeletedElement(s, index) == At(s, index)
  {
  }
}
