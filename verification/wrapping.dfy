/**
 Fixed-width integers as the counters subscriber sees them: the 64-bit
 unsigned words held by its atomic counters (`AtomicUsize` on a 64-bit
 target), the signed 64-bit values a field may carry, and the wrapping
 `fetch_add` / `fetch_sub` the atomics perform.
 */
module Wrapping {

  const WORD_MODULUS: int := 0x1_0000_0000_0000_0000

  /** An unsigned 64-bit machine word (`usize` / `u64`). */
  type Word = x: int | 0 <= x < WORD_MODULUS

  const I64_MIN: int := -0x8000_0000_0000_0000
  const I64_MAX: int := 0x7fff_ffff_ffff_ffff

  /** A signed 64-bit integer (`i64`). */
  type I64 = x: int | I64_MIN <= x <= I64_MAX

  /** `fetch_add(d)` on an atomic word: the value it leaves behind. */
  function WrappingAdd(a: Word, d: Word): Word {
    if a + d < WORD_MODULUS then a + d else a + d - WORD_MODULUS
  }

  /** `fetch_sub(d)` on an atomic word: the value it leaves behind. */
  function WrappingSub(a: Word, d: Word): Word {
    if a >= d then a - d else a - d + WORD_MODULUS
  }

  /** The two's complement bit pattern of a signed value, as `v as u64` gives it. */
  function Bits(v: I64): Word {
    if v >= 0 then v else v + WORD_MODULUS
  }

  /** The word an arbitrary integer denotes modulo 2^64. */
  ghost function Reduce(x: int): Word {
    x % WORD_MODULUS
  }

  /** `fetch_add` is addition modulo 2^64. */
  lemma WrappingAddIsReduce(a: Word, d: Word)
    ensures WrappingAdd(a, d) == Reduce(a + d)
  {
  }

  /** `fetch_sub` is subtraction modulo 2^64. */
  lemma WrappingSubIsReduce(a: Word, d: Word)
    ensures WrappingSub(a, d) == Reduce(a - d)
  {
  }

  /** A signed value's bit pattern is the value modulo 2^64. */
  lemma BitsIsReduce(v: I64)
    ensures Bits(v) == Reduce(v)
  {
  }

  /** Adding the reductions of two integers is reducing their sum. */
  lemma WrappingAddOfReduce(x: int, y: int)
    ensures WrappingAdd(Reduce(x), Reduce(y)) == Reduce(x + y)
  {
    var qx := x / WORD_MODULUS;
    var qy := y / WORD_MODULUS;
    assert x == qx * WORD_MODULUS + Reduce(x);
    assert y == qy * WORD_MODULUS + Reduce(y);
    var s := Reduce(x) + Reduce(y);
    var r := WrappingAdd(Reduce(x), Reduce(y));
    var q := if s < WORD_MODULUS then qx + qy else qx + qy + 1;
    assert x + y == q * WORD_MODULUS + r;
    ModOfMultiplePlus(x + y, q, r);
  }

  /** A remainder is determined by any decomposition into a multiple of 2^64 and a word. */
  lemma ModOfMultiplePlus(x: int, q: int, r: int)
    requires 0 <= r < WORD_MODULUS && x == q * WORD_MODULUS + r
    ensures Reduce(x) == r
  {
    var q' := x / WORD_MODULUS;
    assert x == q' * WORD_MODULUS + Reduce(x);
    assert (q - q') * WORD_MODULUS == Reduce(x) - r;
  }

  lemma WrappingAddCommutes(a: Word, b: Word)
    ensures WrappingAdd(a, b) == WrappingAdd(b, a)
  {
  }

  lemma WrappingAddAssociates(a: Word, b: Word, c: Word)
    ensures WrappingAdd(WrappingAdd(a, b), c) == WrappingAdd(a, WrappingAdd(b, c))
  {
  }

  /**
   Subtracting the magnitude of a non-positive value is adding its bit
   pattern: the `fetch_sub(-v)` branch of the visitor adds `v` modulo 2^64.
   */
  lemma SubMagnitudeIsAddBits(a: Word, v: I64)
    requires I64_MIN < v <= 0
    ensures WrappingSub(a, -v) == WrappingAdd(a, Bits(v))
  {
  }

  /**
   Subtracting a magnitude undoes adding it: an atomic `fetch_sub(d)`
   after `fetch_add(d)` restores the counter, overflow or not.
   */
  lemma SubUndoesAdd(a: Word, d: Word)
    ensures WrappingSub(WrappingAdd(a, d), d) == a
  {
  }
}
