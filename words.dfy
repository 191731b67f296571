/** Fixed-width unsigned integers of the kernel maps and the Go records.
    Dafny integers are unbounded, so every place where C or Go arithmetic
    wraps around is written with an explicit modulus. */
module Words {

  const U32_MODULUS: int := 0x1_0000_0000
  const U64_MODULUS: int := 0x1_0000_0000_0000_0000

  type u32 = x: int | 0 <= x < U32_MODULUS
  type u64 = x: int | 0 <= x < U64_MODULUS

  /** `a + b` on u64 (C `+=`, Go `+=` on uint64). */
  function AddU64(a: u64, b: u64): u64
  {
    (a + b) % U64_MODULUS
  }

  /** `a - b` on u64: C unsigned subtraction, modulo 2^64 (Dafny's `%` is never negative). */
  function SubU64(a: u64, b: u64): u64
  {
    (a - b) % U64_MODULUS
  }

  /** Reducing an accumulator before adding to it does not change the sum modulo 2^64;
      this is what lets a wrapped running total equal the full sum reduced once. */
  lemma ModAddLeft(a: int, b: int)
    ensures (a % U64_MODULUS + b) % U64_MODULUS == (a + b) % U64_MODULUS
  {
    var q := a / U64_MODULUS;
    assert a == q * U64_MODULUS + a % U64_MODULUS;
    ShiftMod(a % U64_MODULUS + b, q);
  }

  lemma ShiftMod(x: int, q: int)
    ensures (x + q * U64_MODULUS) % U64_MODULUS == x % U64_MODULUS
  {
  }

  /** On 64-bit words holding values below 2^32, `(v << 32) | a` is `v * 2^32 + a`:
      packed keys are modelled by that arithmetic. */
  lemma ShiftOrIsMulAdd(v: bv64, a: bv64)
    requires v < 0x1_0000_0000 && a < 0x1_0000_0000
    ensures (v << 32) | a == v * 0x1_0000_0000 + a
  {
  }

  /** `k >> 32` and `k & 0xffffffff` are `k / 2^32` and `k % 2^32`. */
  lemma ShiftMaskIsDivMod(k: bv64)
    ensures k >> 32 == k / 0x1_0000_0000
    ensures k & 0xffff_ffff == k % 0x1_0000_0000
  {
  }

  /** Two wrapped additions in a row are one wrapped addition of the sum. */
  lemma AddTwiceWrapped(x0: int, d: int, rest: int, x1: int, x2: int)
    requires x1 == (x0 + d) % U64_MODULUS
    requires x2 == (x1 + rest) % U64_MODULUS
    ensures x2 == (x0 + (d + rest)) % U64_MODULUS
  {
    ModAddLeft(x0 + d, rest);
  }
}
