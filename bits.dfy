/** A Rust `u64` register seen as its 64 bits, least significant bit first,
    with the operations of the `bit_field` crate that the DCF77 decoder uses:
    `set_bit`, `get_bit` (indexing) and `get_bits` over a half-open range. */
module Bits {

  /** A 64-bit register; `x[i]` is bit `i` (weight 2^i). */
  type Word = s: seq<bool> | |s| == 64 witness seq(64, _ => false)

  /** The register value 0. */
  function Zero(): (z: Word)
    ensures forall i :: 0 <= i < 64 ==> !z[i]
  {
    seq(64, _ => false)
  }

  function Pow2(n: nat): (r: nat)
    ensures r >= 1
  {
    if n == 0 then 1 else 2 * Pow2(n - 1)
  }

  /** Bit `k` of the natural number `v`. */
  function Bit(v: nat, k: nat): bool
  {
    if k == 0 then v % 2 == 1 else Bit(v / 2, k - 1)
  }

  /** `x.set_bit(b, v)`: only bit `b` changes, and it becomes `v`
      (`bit_field` panics for `b >= 64`, hence the precondition). */
  function SetBit(x: Word, b: nat, v: bool): (r: Word)
    requires b < 64
    ensures r[b] == v
    ensures forall i :: 0 <= i < 64 && i != b ==> r[i] == x[i]
  {
    x[b := v]
  }

  /** `x.get_bits(lo..lo + n)`: the `n` bits from `lo` upwards read as a
      binary number, bit `lo` being the least significant. */
  function Field(x: Word, lo: nat, n: nat): (r: nat)
    requires lo + n <= 64
    ensures r < Pow2(n)
    decreases n
  {
    if n == 0 then 0 else (if x[lo] then 1 else 0) + 2 * Field(x, lo + 1, n - 1)
  }

  /** The bits of `v` below `n`, placed from `lo` upwards in `x`, read back as `v`. */
  lemma {:induction false} FieldOfBits(x: Word, lo: nat, n: nat, v: nat)
    requires lo + n <= 64 && v < Pow2(n)
    requires forall k :: 0 <= k < n ==> x[lo + k] == Bit(v, k)
    ensures Field(x, lo, n) == v
    decreases n
  {
    if n == 0 {
    } else {
      assert x[lo + 0] == Bit(v, 0);
      forall k | 0 <= k < n - 1
        ensures x[(lo + 1) + k] == Bit(v / 2, k)
      {
        assert x[lo + (k + 1)] == Bit(v, k + 1);
      }
      FieldOfBits(x, lo + 1, n - 1, v / 2);
    }
  }

  /** Registers that agree on a range read the same number from it. */
  lemma {:induction false} FieldAgree(x: Word, y: Word, lo: nat, n: nat)
    requires lo + n <= 64
    requires forall i :: lo <= i < lo + n ==> x[i] == y[i]
    ensures Field(x, lo, n) == Field(y, lo, n)
    decreases n
  {
    if n > 0 {
      FieldAgree(x, y, lo + 1, n - 1);
    }
  }

  /** The number of set bits among `lo .. hi - 1`. */
  function Ones(x: Word, lo: nat, hi: nat): nat
    requires lo <= hi <= 64
    decreases hi - lo
  {
    if lo == hi then 0 else Ones(x, lo, hi - 1) + (if x[hi - 1] then 1 else 0)
  }

  /** The XOR fold of bits `lo .. hi - 1`, in the order of the source's
      `map(get_bit).fold(false, ^)`.  It is true exactly when the range holds
      an odd number of set bits, so a false fold is an even-parity check that
      passes. */
  function Parity(x: Word, lo: nat, hi: nat): (r: bool)
    requires lo <= hi <= 64
    ensures r <==> Ones(x, lo, hi) % 2 == 1
    decreases hi - lo
  {
    if lo == hi then false else Parity(x, lo, hi - 1) != x[hi - 1]
  }

  /** Two registers that agree on every bit of a range but `pos` have XOR folds
      over that range that differ exactly when they differ at `pos`. */
  lemma {:induction false} ParityOneBit(x: Word, y: Word, lo: nat, hi: nat, pos: nat)
    requires lo <= pos < hi <= 64
    requires forall i :: lo <= i < hi && i != pos ==> x[i] == y[i]
    ensures Parity(y, lo, hi) == (Parity(x, lo, hi) != (x[pos] != y[pos]))
    decreases hi - lo
  {
    if hi - 1 == pos {
      ParityAgree(x, y, lo, hi - 1);
    } else {
      ParityOneBit(x, y, lo, hi - 1, pos);
    }
  }

  /** Registers that agree on a range have the same XOR fold over it. */
  lemma {:induction false} ParityAgree(x: Word, y: Word, lo: nat, hi: nat)
    requires lo <= hi <= 64
    requires forall i :: lo <= i < hi ==> x[i] == y[i]
    ensures Parity(x, lo, hi) == Parity(y, lo, hi)
    decreases hi - lo
  {
    if lo < hi {
      ParityAgree(x, y, lo, hi - 1);
    }
  }

  /** Flipping one bit of a range flips its XOR fold: a single-bit error is
      always caught by an even-parity check. */
  lemma FlipBreaksParity(x: Word, lo: nat, hi: nat, pos: nat)
    requires lo <= pos < hi <= 64
    ensures Parity(SetBit(x, pos, !x[pos]), lo, hi) == !Parity(x, lo, hi)
  {
    ParityOneBit(x, SetBit(x, pos, !x[pos]), lo, hi, pos);
  }
}
