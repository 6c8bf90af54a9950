# SimpleRNG in Dafny

A model of the `simple_rng` crate: a seedable, non-cryptographic
pseudo-random number generator. `RNG` holds one mutable `u64` seed. `next`
replaces the seed with its successor under a linear congruential step and
returns it. Each derivation that produces a value calls `next` exactly once,
except `pick_random` on an empty slice, which returns `None` without
advancing; every panic fires before `next`:

- `gen_range` maps the result onto an inclusive range.
- `gen_bool` takes its low bit.
- `gen_unsigned` and `gen_signed` truncate it to 8, 16, 32 or 64 bits.
- `pick_random` chooses an element of a slice.

The step is 32-bit-truncated: `(1664525 * seed + 1013904223)` with 64-bit
wrap-around, truncated to 32 bits by `as u32`. After the first advance
the state is therefore always below 2^32.

Layout:

- `engine.dfy` (module `Engine`): the integer types `U64`, `U8` and `I64`
  (`usize` and `isize` are taken as 64 bits), u64 wrap-around written out with
  `% 2^64`, the private `lcg` step, and lemmas about it: its result fits in
  32 bits, it depends only on the low 32 bits, it has no fixed point, and it
  flips parity.
- `derivation.dfy` (module `Derivation`): the pure part of each derivation as
  a function of the raw value. Panics are values of `Outcome` carrying a
  `Fault`.
- `generator.dfy` (module `Generator`): class `Rng` with the field `seed`.
  Its methods have `modifies this`, and their `ensures` give the new seed and
  the result in terms of the old seed.
- `scenarios.dfy` (module `Scenarios`): the crate's tests as client methods,
  generalised from their one seed to every seed, and one counterexample
  (`GenRangeReachesMax`) to the bound a test asserts.

Panics: `gen_range`, `gen_unsigned` and `gen_signed` check their arguments
before they call `next`. A panic is therefore modelled as `Panic(fault)` with
the seed unchanged. `gen_range` computes `max - min + 1` in `u64`. That sum
overflows only for `min == 0, max == u64::MAX`. The model reports this case
as `Panic(SpanOverflow)`, before the advance, which is what an
overflow-checked (debug) build does.

## Model

| member | source | states |
|---|---|---|
| `Engine.Lcg` | src/lib.rs:159-163 | the successor of any `u64` state fits in 32 bits (so `gen_float`'s division by 2^32 stays below 1) |
| `Engine.LcgIsAffineModulo32` | src/lib.rs:159-163 | the 64-bit wrapping multiply and add, then `as u32`, equal the exact `a * seed + c` reduced modulo 2^32 |
| `Engine.LcgDependsOnlyOnLow32` | src/lib.rs:159-163 | the successor depends only on the state modulo 2^32 |
| `Engine.LcgHasNoFixedPoint` | src/lib.rs:159-163 | no state is its own successor, so `next` always changes the seed |
| `Engine.LcgFlipsParity` | src/lib.rs:159-163 | the successor's parity is always the opposite of the state's |
| `Derivation.RangeMap` | src/lib.rs:82-88 | panics with `MaxNotAboveMin` iff `max <= min`, with `SpanOverflow` iff the span overflows `u64`; succeeds iff `min < max` and the span fits, and then the value lies in `[min, max]` inclusive |
| `Derivation.RangeMapReachesEveryValue` | src/lib.rs:86-87 | every value of a valid range, both ends included, is produced by some raw `u64` value (a fact about the map; `next` yields only values below 2^32) |
| `Derivation.LowBit` | src/lib.rs:110 | `raw & 1 == 1` holds exactly when the raw value is odd |
| `Derivation.Unsigned` | src/lib.rs:114-122 | panics iff the size is not 8, 16, 32 or 64; otherwise the value is below 2^size and congruent to the raw value modulo 2^size |
| `Derivation.Signed` | src/lib.rs:125-133 | panics iff the size is unsupported; otherwise the value lies in `[-2^(size-1), 2^(size-1))` and is congruent to the raw value modulo 2^size |
| `Derivation.SignedRoundTripsToUnsigned` | src/lib.rs:114-133 | reducing the signed result modulo 2^size gives back exactly the unsigned result |
| `Derivation.LowBitIsParityOfUnsigned` | src/lib.rs:109-122 | `gen_bool`'s bit is the parity of the `gen_unsigned` result at every supported size |
| `Derivation.PickIndex` | src/lib.rs:148-155 | `None` iff the slice is empty; panics iff it has one element (through `gen_range(0, 0)`); otherwise the index is below the length and equals the raw value modulo the length |
| `Generator.Rng.constructor` | src/lib.rs:34-36 | the state is the given seed, with no restriction on it |
| `Generator.Rng.Next` | src/lib.rs:67-70 | the new seed is `lcg(old seed)` and is the value returned; it is below 2^32 and differs from the old seed |
| `Generator.Rng.GenRange` | src/lib.rs:82-88 | succeeds iff `min < max` and the span fits; then it advances once and returns a value in `[min, max]` equal to `RangeMap` of the new state; a panic leaves the seed alone |
| `Generator.Rng.GenBool` | src/lib.rs:109-111 | advances once and returns true iff the new state is odd |
| `Generator.Rng.GenUnsigned` | src/lib.rs:114-122 | panics without advancing iff the size is unsupported; otherwise advances once and returns a value below 2^size |
| `Generator.Rng.GenSigned` | src/lib.rs:125-133 | panics without advancing iff the size is unsupported; otherwise advances once and returns a value in the signed range of that width, non-negative for size 64 |
| `Generator.Rng.PickRandom` | src/lib.rs:148-155 | `None` iff the slice is empty; panics iff it has one element; in both cases the seed is unchanged; for two or more elements it advances once and returns the element at index `new state % len`; in every case the result is the slice element at the index `PickIndex` chooses from the advanced state, or its `None` or panic |
| `Scenarios.NextChangesSeed` | src/lib.rs:171-176 | for every seed, not only 123, `next` changes the seed |
| `Scenarios.GenRangeBounds` | src/lib.rs:180-184 | `gen_range(10, 20)` lies in `[10, 20]` for every seed, and is 13 for seed 42 |
| `Scenarios.GenRangeReachesMax` | src/lib.rs:183 | from seed 6, `gen_range(10, 20)` returns 20, so the test's bound `val < 20` is not guaranteed by the code |
| `Scenarios.GenBoolDistribution` | src/lib.rs:188-200 | from any seed, 1000 calls of `gen_bool` give exactly 500 true and 500 false, because the low bit alternates |
| `Scenarios.ShuffleDrain` | src/lib.rs:210-221 | removing the element at `gen_range(0, len - 1)` while more than one is left, then the last one, always uses a valid index, terminates, empties the vector, and removes each element exactly once |

## Left out

- `from_time` (src/lib.rs:48-55): it reads the system clock. Besides the panic when the clock reads before the Unix epoch, it truncates the `u128` nanosecond count to its low 64 bits with `as u64`; the clock is not modelled, so neither is this.
- `gen_float` (src/lib.rs:91-93): it is `f64` division, and floating point is not modelled. The integer fact it relies on is in `Engine.Lcg`: the state after `next` is below 2^32.
- `#![no_std]` and the `std` feature gates: they are build configuration.
- `Generator.Rng.PickRandom`: returns a copy of the chosen element instead of a borrowed reference; Rust lifetimes are not modelled.
- `Generator.Rng.GenRange`: in a build without overflow checks, `max - min + 1` wraps to 0 for `min == 0, max == u64::MAX`, and `% 0` then panics after the seed has advanced. The model follows the overflow-checked build, where the panic comes first and the seed is unchanged.
- Panics are values, not unwinding: the model does not cover a caller that catches a panic and keeps using the generator.
