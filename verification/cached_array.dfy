/** `CachedArray<T>` (cocos/base/CachedArray.h): a growable contiguous array
    with an explicit capacity. Only the live prefix `[0, size)` is observable,
    so the model keeps the live elements as a sequence and the capacity as a
    number; storage beyond `size` carries no promise. */
module CachedArray {
  import opened Common

  datatype CachedArray<T> = CachedArray(elems: seq<T>, capacity: nat) {
    function Size(): nat { |elems| }
    ghost predicate Valid() { |elems| <= capacity }
  }

  /** Constructor: `CachedArray(uint size = 1)`. */
  function New<T>(n: nat): (a: CachedArray<T>)
    ensures a.Valid() && a.Size() == 0
    ensures a.capacity == Max(n, 1) && a.capacity >= 1
  {
    CachedArray([], if n >= 1 then n else 1)
  }

  /** What a move (constructor or assignment) leaves in the moved-from array:
      no elements and no storage at all. */
  function MovedFrom<T>(): (a: CachedArray<T>)
    ensures a.Valid() && a.Size() == 0 && a.capacity == 0
  {
    CachedArray([], 0)
  }

  /** `push`: double the capacity when full, then store at index `size`.
      A moved-from array (capacity 0) would double to 0 and write past its
      storage, so a positive capacity is required. */
  function Push<T>(a: CachedArray<T>, x: T): (r: CachedArray<T>)
    requires a.Valid() && a.capacity >= 1
    ensures r.Valid() && r.capacity >= 1
    ensures r.Size() == a.Size() + 1 && r.elems[a.Size()] == x
    ensures forall i :: 0 <= i < a.Size() ==> r.elems[i] == a.elems[i]
    ensures a.Size() == a.capacity ==> r.capacity == 2 * a.capacity
    ensures a.Size() < a.capacity ==> r.capacity == a.capacity
  {
    var cap := if |a.elems| >= a.capacity then a.capacity * 2 else a.capacity;
    CachedArray(a.elems + [x], cap)
  }

  /** `pop`: the former last element and the shortened array. `pop`
      does not guard the empty case (it would read index -1). */
  function Pop<T>(a: CachedArray<T>): (r: (T, CachedArray<T>))
    requires a.Valid() && a.Size() > 0
    ensures r.0 == a.elems[a.Size() - 1]
    ensures r.1.Valid() && r.1.Size() == a.Size() - 1 && r.1.capacity == a.capacity
    ensures forall i :: 0 <= i < r.1.Size() ==> r.1.elems[i] == a.elems[i]
  {
    (a.elems[|a.elems| - 1], CachedArray(a.elems[..|a.elems| - 1], a.capacity))
  }

  /** `reserve(n)`: grow storage to exactly `n` when `n` exceeds it. */
  function Reserve<T>(a: CachedArray<T>, n: nat): (r: CachedArray<T>)
    requires a.Valid()
    ensures r.Valid() && r.elems == a.elems
    ensures r.capacity == Max(a.capacity, n)
  {
    if n > a.capacity then CachedArray(a.elems, n) else a
  }

  /** Both `concat` overloads (another array, or a raw pointer with a
      count): append `xs` in order, growing to `max(2·capacity, size+count)`
      when they do not fit. */
  function ConcatRaw<T>(a: CachedArray<T>, xs: seq<T>): (r: CachedArray<T>)
    requires a.Valid()
    ensures r.Valid()
    ensures r.elems == a.elems + xs
    ensures a.Size() + |xs| <= a.capacity ==> r.capacity == a.capacity
    ensures a.Size() + |xs| > a.capacity ==> r.capacity == Max(2 * a.capacity, a.Size() + |xs|)
  {
    var cap := if |a.elems| + |xs| > a.capacity then Max(a.capacity * 2, |a.elems| + |xs|) else a.capacity;
    CachedArray(a.elems + xs, cap)
  }

  /** The array overload: appends `b`'s elements with the same growth
      rule as the raw overload, which is why the two overloads agree. */
  function Concat<T>(a: CachedArray<T>, b: CachedArray<T>): (r: CachedArray<T>)
    requires a.Valid()
    ensures r.Valid() && r.elems == a.elems + b.elems
    ensures a.Size() + b.Size() <= a.capacity ==> r.capacity == a.capacity
    ensures a.Size() + b.Size() > a.capacity ==> r.capacity == Max(2 * a.capacity, a.Size() + b.Size())
  {
    ConcatRaw(a, b.elems)
  }

  /** `fastRemove(i)`: move the last element into slot `i`; a no-op when
      `i` is out of range. Order is not preserved. */
  function FastRemove<T>(a: CachedArray<T>, i: nat): (r: CachedArray<T>)
    requires a.Valid()
    ensures r.Valid() && r.capacity == a.capacity
    ensures i >= a.Size() ==> r == a
    ensures i < a.Size() ==> r.Size() == a.Size() - 1
    ensures i < a.Size() - 1 ==> r.elems[i] == a.elems[a.Size() - 1]
    ensures i < a.Size() ==> forall j :: 0 <= j < r.Size() && j != i ==> r.elems[j] == a.elems[j]
  {
    if i >= |a.elems| then a
    else
      var last := a.elems[|a.elems| - 1];
      var shrunk := a.elems[..|a.elems| - 1];
      CachedArray(if i < |shrunk| then shrunk[i := last] else shrunk, a.capacity)
  }

  /** Removing index `i` keeps exactly the multiset of the other elements. */
  lemma FastRemoveMultiset<T>(a: CachedArray<T>, i: nat)
    requires a.Valid() && i < a.Size()
    ensures multiset(FastRemove(a, i).elems) + multiset{a.elems[i]} == multiset(a.elems)
  {
    var n := |a.elems|;
    var shrunk := a.elems[..n - 1];
    assert a.elems == shrunk + [a.elems[n - 1]];
    if i < n - 1 {
      assert shrunk == shrunk[..i] + [shrunk[i]] + shrunk[i + 1..];
      assert shrunk[i := a.elems[n - 1]] == shrunk[..i] + [a.elems[n - 1]] + shrunk[i + 1..];
    }
  }

  /** `clear`: drop every element, keep the storage. */
  function Clear<T>(a: CachedArray<T>): (r: CachedArray<T>)
    requires a.Valid()
    ensures r.Valid() && r.Size() == 0 && r.capacity == a.capacity
  {
    CachedArray([], a.capacity)
  }

  /** Reference meaning of `indexOf`: the first position of `x`, or
      `UINT_MAX` when absent. */
  ghost predicate IsIndexOf<T>(s: seq<T>, x: T, r: nat) {
    (r == UINT_MAX && x !in s) ||
    (r < |s| && s[r] == x && forall j :: 0 <= j < r ==> s[j] != x)
  }

  /** `indexOf`: linear scan. Sizes are `uint`, so a live array holds fewer
      than `UINT_MAX` elements and the sentinel is never a real index. */
  method IndexOf<T(==)>(a: CachedArray<T>, x: T) returns (r: nat)
    requires a.Valid() && a.Size() < UINT_MAX
    ensures IsIndexOf(a.elems, x, r)
  {
    var i := 0;
    while i < |a.elems|
      invariant 0 <= i <= |a.elems|
      invariant forall j :: 0 <= j < i ==> a.elems[j] != x
    {
      if a.elems[i] == x {
        return i;
      }
      i := i + 1;
    }
    return UINT_MAX;
  }

  /** `push` applied to each of `xs` in turn. */
  function PushAll<T>(a: CachedArray<T>, xs: seq<T>): (r: CachedArray<T>)
    requires a.Valid() && a.capacity >= 1
    ensures r.Valid() && r.capacity >= 1
    decreases |xs|
  {
    if |xs| == 0 then a else PushAll(Push(a, xs[0]), xs[1..])
  }

  /** Capacity reached by doubling from `c` until `n` elements fit. */
  function Doubled(c: nat, n: nat): (r: nat)
    requires c >= 1
    ensures r >= n && r >= c
    decreases n - c
  {
    if n <= c then c else Doubled(2 * c, n)
  }

  /** A run of pushes keeps insertion order, and its capacity is the first
      doubling of the starting capacity that holds every element. */
  lemma {:induction false} PushAllSpec<T>(a: CachedArray<T>, xs: seq<T>)
    requires a.Valid() && a.capacity >= 1
    ensures PushAll(a, xs).elems == a.elems + xs
    ensures PushAll(a, xs).capacity == Doubled(a.capacity, a.Size() + |xs|)
    decreases |xs|
  {
    if |xs| == 0 {
      assert a.elems + xs == a.elems;
    } else {
      var b := Push(a, xs[0]);
      PushAllSpec(b, xs[1..]);
      assert b.elems + xs[1..] == a.elems + xs;
      if a.Size() < a.capacity {
        assert b.capacity == a.capacity;
      } else {
        assert b.capacity == 2 * a.capacity;
        assert Doubled(2 * a.capacity, a.Size() + |xs|) == Doubled(a.capacity, a.Size() + |xs|);
      }
    }
  }
}
