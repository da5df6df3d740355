/** Shared vocabulary of the model: optional values (the engine's nullable
    pointers), 32-bit unsigned arithmetic, powers of two, and small sequence
    helpers used by several components. */
module Common {

  /** A nullable reference: `None` stands for `nullptr`. */
  datatype Option<+T> = None | Some(value: T)

  /** Range of a C++ `uint` (32 bits). */
  const U32_LIMIT: nat := 0x1_0000_0000
  /** `UINT_MAX`, the engine's "not found" sentinel. */
  const UINT_MAX: nat := 0xFFFF_FFFF

  type u32 = x: nat | x < U32_LIMIT
  type Byte = b: nat | b < 256

  /** Unsigned 32-bit addition, wrapping like C++ `uint +=`. */
  function AddU32(a: u32, b: u32): (r: u32)
    ensures a + b < U32_LIMIT ==> r == a + b
    ensures a + b >= U32_LIMIT ==> r == a + b - U32_LIMIT
  {
    (a + b) % U32_LIMIT
  }

  /** Unsigned 32-bit subtraction, wrapping below zero like C++ `uint -`. */
  function SubU32(a: u32, b: u32): (r: u32)
    ensures a >= b ==> r == a - b
    ensures a < b ==> r == a - b + U32_LIMIT
  {
    (a - b) % U32_LIMIT
  }

  /** Unsigned 32-bit multiplication, keeping the low 32 bits. */
  function MulU32(a: u32, b: u32): (r: u32)
    ensures a * b < U32_LIMIT ==> r == a * b
  {
    (a * b) % U32_LIMIT
  }

  function Max(a: int, b: int): int { if a >= b then a else b }
  function Min(a: int, b: int): int { if a <= b then a else b }

  ghost predicate IsPow2(n: nat) {
    n == 1 || (n >= 2 && n % 2 == 0 && IsPow2(n / 2))
  }

  /** The smallest power of two that is at least `n` (`nextPow2` of the
      engine's math library; `nextPow2(0)` is taken to be 1). */
  function NextPow2(n: nat): (r: nat)
    ensures r >= 1 && r >= n
    ensures IsPow2(r)
    ensures n >= 1 ==> r < 2 * n
    decreases n
  {
    if n <= 1 then 1
    else
      var h := NextPow2((n + 1) / 2);
      assert IsPow2(2 * h) by {
        assert (2 * h) / 2 == h && (2 * h) % 2 == 0;
      }
      2 * h
  }

  /** `n` zero bytes, the content of a `memset(…, 0, n)` region. */
  function Zeros(n: nat): (r: seq<Byte>)
    ensures |r| == n
    ensures forall i :: 0 <= i < n ==> r[i] == 0
  {
    seq(n, _ => 0)
  }

  /** `s` resized to length `n`: the prefix is kept, new slots are `pad`
      (the behaviour of `std::vector::resize` and of a grown `malloc` +
      `memcpy` of the valid prefix). */
  function Resize<T>(s: seq<T>, n: nat, pad: T): (r: seq<T>)
    ensures |r| == n
    ensures forall i :: 0 <= i < n && i < |s| ==> r[i] == s[i]
    ensures forall i :: |s| <= i < n ==> r[i] == pad
  {
    if n <= |s| then s[..n] else s + seq(n - |s|, _ => pad)
  }

  /** `dst` with `src` copied over positions `[off, off + |src|)`, the effect
      of `memcpy(dst + off, src, |src|)`. */
  function Overwrite<T>(dst: seq<T>, off: nat, src: seq<T>): (r: seq<T>)
    requires off + |src| <= |dst|
    ensures |r| == |dst|
    ensures forall i :: off <= i < off + |src| ==> r[i] == src[i - off]
    ensures forall i :: 0 <= i < |dst| && !(off <= i < off + |src|) ==> r[i] == dst[i]
  {
    dst[..off] + src + dst[off + |src|..]
  }

  /** Sequence concatenation is associative (stated once so that proofs
      about long concatenations need not rediscover it). */
  lemma AppendAssoc<T>(a: seq<T>, b: seq<T>, c: seq<T>)
    ensures (a + b) + c == a + (b + c)
  {
  }

  /** The sequences of `ss` joined in order. */
  function Join<T>(ss: seq<seq<T>>): seq<T>
    decreases |ss|
  {
    if |ss| == 0 then [] else ss[0] + Join(ss[1..])
  }

  /** Number of occurrences of `x` in `s`. */
  function Count<T(==)>(s: seq<T>, x: T): nat
  {
    if |s| == 0 then 0 else Count(s[..|s| - 1], x) + (if s[|s| - 1] == x then 1 else 0)
  }

  lemma {:induction false} CountAppend<T>(a: seq<T>, b: seq<T>, x: T)
    ensures Count(a + b, x) == Count(a, x) + Count(b, x)
    decreases |b|
  {
    if |b| == 0 {
      assert a + b == a;
    } else {
      assert (a + b)[..|a + b| - 1] == a + b[..|b| - 1];
      CountAppend(a, b[..|b| - 1], x);
    }
  }
}
