/** The congruential core of the generator: the fixed-width integer types the
    library works in and the private state transition `lcg`.

    Rust's `u64` arithmetic is written out explicitly: `wrapping_mul` and
    `wrapping_add` reduce modulo 2^64, and the cast `as u32` keeps the low
    32 bits. */
module Engine {

  const Two32: int := 0x1_0000_0000
  const Two64: int := 0x1_0000_0000_0000_0000

  /** Rust's `u64` (and `usize`, which this model takes as 64 bits wide). */
  type U64 = x: int | 0 <= x < 0x1_0000_0000_0000_0000

  /** Rust's `u8`, the type of the size argument of the fixed-width derivations. */
  type U8 = x: int | 0 <= x < 0x100

  /** Rust's `i64` (and `isize`, taken as 64 bits wide). */
  type I64 = x: int | -0x8000_0000_0000_0000 <= x < 0x8000_0000_0000_0000

  /** The transition constants of the narrow congruential step. */
  const Multiplier: U64 := 1664525
  const Increment: U64 := 1013904223

  /** `u64::wrapping_mul`. */
  function WrappingMul(a: U64, b: U64): U64 {
    (a * b) % Two64
  }

  /** `u64::wrapping_add`. */
  function WrappingAdd(a: U64, b: U64): U64 {
    (a + b) % Two64
  }

  /** The cast `as u32` followed by `as u64`: only the low 32 bits survive. */
  function TruncateToU32(x: U64): U64 {
    x % Two32
  }

  /** One step of the generator: `a * seed + c` with 64-bit wrap-around,
      then truncated to 32 bits, so every successor state fits in 32 bits. */
  function Lcg(seed: U64): (r: U64)
    ensures r < Two32
  {
    TruncateToU32(WrappingAdd(WrappingMul(Multiplier, seed), Increment))
  }

  /** The intermediate 64-bit wrap-around is invisible after the truncation:
      the step is the exact affine value reduced modulo 2^32. */
  lemma LcgIsAffineModulo32(seed: U64)
    ensures Lcg(seed) == (Multiplier * seed + Increment) % Two32
  {
    var v := Multiplier * seed + Increment;
    var q1 := (Multiplier * seed) / Two64;
    var m := WrappingMul(Multiplier, seed);
    assert m == Multiplier * seed - q1 * Two64;
    var q2 := (m + Increment) / Two64;
    var t := WrappingAdd(m, Increment);
    assert t == m + Increment - q2 * Two64;
    assert t == (-(q1 + q2) * Two32) * Two32 + v;
    ModAddMultiple(v, -(q1 + q2) * Two32);
  }

  /** Reduction modulo 2^32 commutes with the affine map, so the high 32 bits
      of the state never influence its successor. */
  lemma LcgDependsOnlyOnLow32(seed: U64)
    ensures Lcg(seed) == Lcg(seed % Two32)
  {
    LcgIsAffineModulo32(seed);
    LcgIsAffineModulo32(seed % Two32);
    var lo := seed % Two32;
    var hi := seed / Two32;
    assert seed == hi * Two32 + lo;
    assert Multiplier * seed + Increment == (Multiplier * hi) * Two32 + (Multiplier * lo + Increment);
    ModAddMultiple(Multiplier * lo + Increment, Multiplier * hi);
  }

  /** Adding a multiple of 2^32 does not change a residue modulo 2^32. */
  lemma ModAddMultiple(x: int, k: int)
    ensures (k * Two32 + x) % Two32 == x % Two32
  {
    var q := x / Two32;
    assert x == q * Two32 + x % Two32;
    assert k * Two32 + x == (k + q) * Two32 + x % Two32;
  }

  /** `next` always changes the state: the step has no fixed point. A state of
      32 bits or more cannot be a successor, and a 32-bit fixed point `s`
      would need (a - 1) * s + c to be a multiple of 2^32, which is impossible
      because a - 1 is even and c is odd. */
  lemma LcgHasNoFixedPoint(seed: U64)
    ensures Lcg(seed) != seed
  {
    if seed < Two32 {
      LcgFlipsParity(seed);
    }
  }

  /** Both constants are odd, so the step flips the parity of the state:
      (a * s + c) is congruent to s + 1 modulo 2, and reducing modulo the
      even number 2^32 keeps that parity. */
  lemma LcgFlipsParity(seed: U64)
    ensures Lcg(seed) % 2 != seed % 2
  {
    LcgIsAffineModulo32(seed);
    var v := Multiplier * seed + Increment;
    var q := v / Two32;
    assert v == q * Two32 + Lcg(seed);
    assert v == 2 * (832262 * seed + 506952111) + seed + 1;
    ParityOfSum(q * (Two32 / 2), Lcg(seed), 832262 * seed + 506952111, seed);
  }

  /** Euclidean division is unique: a quotient and a remainder in [0, m)
      that recompose x are x / m and x % m. */
  lemma ModUnique(x: int, m: int, q: int, r: int)
    requires m > 0 && 0 <= r < m && x == q * m + r
    ensures x % m == r
  {
    var q', r' := x / m, x % m;
    assert x == q' * m + r';
    var d := q - q';
    assert d * m == r' - r by {
      assert q * m - q' * m == d * m;
    }
    if d > 0 {
      MulAtLeast(d, m);
    } else if d < 0 {
      MulAtLeast(-d, m);
    }
  }

  lemma MulAtLeast(k: int, m: int)
    requires k >= 1 && m > 0
    ensures k * m >= m
  {
    var j := k - 1;
    assert k * m == j * m + m;
    assert j * m >= 0;
  }

  /** If 2x + y == 2z + w + 1 then y and w have different parities. */
  lemma ParityOfSum(x: int, y: int, z: int, w: int)
    requires 2 * x + y == 2 * z + w + 1
    ensures y % 2 != w % 2
  {
    var yq, wq := y / 2, w / 2;
    assert y == 2 * yq + y % 2;
    assert w == 2 * wq + w % 2;
  }
}
