/** The `RNG` struct: one mutable `u64` seed, advanced in place by `next`, and
    the derivation methods. Each derivation that produces a value advances
    the seed exactly once, except `pick_random` on an empty slice, which
    returns `None` without advancing; every panic fires before `next`, so a
    panicking call leaves the seed unchanged. */
module Generator {
  import opened Engine
  import opened Derivation

  class Rng {
    /** The current state; before the first `next` it is the seed itself. */
    var seed: U64

    /** `RNG::new`: any `u64`, zero included, is a valid seed. */
    constructor (seed: U64)
      ensures this.seed == seed
    {
      this.seed := seed;
    }

    /** `next`: replace the seed by its successor and return it. The successor
        fits in 32 bits and always differs from the seed it replaces. */
    method Next() returns (r: U64)
      modifies this
      ensures seed == Lcg(old(seed)) && r == seed
      ensures r < Two32 && r != old(seed)
    {
      LcgHasNoFixedPoint(seed);
      seed := Lcg(seed);
      r := seed;
    }

    /** `gen_range`: a value of the inclusive range [min, max]; panics, without
        advancing, when `max <= min` or when the span overflows `u64`. */
    method GenRange(min: U64, max: U64) returns (r: Outcome<U64>)
      modifies this
      ensures r.Ok? <==> min < max && !(min == 0 && max == Two64 - 1)
      ensures r.Ok? ==> seed == Lcg(old(seed)) && min <= r.value <= max
      ensures r.Ok? ==> r == RangeMap(seed, min, max)
      ensures r.Panic? ==> seed == old(seed) && r == RangeMap(Lcg(old(seed)), min, max)
    {
      if max <= min {
        return Panic(MaxNotAboveMin);
      }
      if max - min + 1 >= Two64 {
        return Panic(SpanOverflow);
      }
      var range := max - min + 1;
      var raw := Next();
      r := Ok(raw % range + min);
    }

    /** `gen_bool`: true exactly when the advanced state is odd. */
    method GenBool() returns (b: bool)
      modifies this
      ensures seed == Lcg(old(seed))
      ensures b <==> seed % 2 == 1
      ensures b == LowBit(seed)
    {
      var raw := Next();
      b := LowBit(raw);
    }

    /** `gen_unsigned`: the low `size` bits of the advanced state, for a size
        of 8, 16, 32 or 64; any other size panics without advancing. */
    method GenUnsigned(size: U8) returns (r: Outcome<U64>)
      modifies this
      ensures r.Panic? <==> !SupportedSize(size)
      ensures r.Panic? ==> seed == old(seed) && r.fault == UnsupportedSize
      ensures r.Ok? ==> seed == Lcg(old(seed)) && r == Unsigned(seed, size)
      ensures r.Ok? ==> r.value < Modulus(size)
    {
      if !SupportedSize(size) {
        return Panic(UnsupportedSize);
      }
      var raw := Next();
      r := Unsigned(raw, size);
    }

    /** `gen_signed`: the low `size` bits of the advanced state read as a
        two's-complement number, for a size of 8, 16, 32 or 64; any other size
        panics without advancing. */
    method GenSigned(size: U8) returns (r: Outcome<I64>)
      modifies this
      ensures r.Panic? <==> !SupportedSize(size)
      ensures r.Panic? ==> seed == old(seed) && r.fault == UnsupportedSize
      ensures r.Ok? ==> seed == Lcg(old(seed)) && r == Signed(seed, size)
      ensures r.Ok? ==> -(Modulus(size) / 2) <= r.value < Modulus(size) / 2
      ensures r.Ok? && size == 64 ==> r.value >= 0
    {
      if !SupportedSize(size) {
        return Panic(UnsupportedSize);
      }
      var raw := Next();
      r := Signed(raw, size);
    }

    /** `pick_random`: `None` for an empty slice, leaving the state alone;
        otherwise one element, chosen by `gen_range(0, len - 1)`. A slice of
        one element panics through that call. The slice length is a `usize`. */
    method PickRandom<T>(slice: seq<T>) returns (r: Outcome<Option<T>>)
      requires |slice| < Two64
      modifies this
      ensures r == Ok(None) <==> |slice| == 0
      ensures r.Panic? <==> |slice| == 1
      ensures r.Panic? ==> r.fault == MaxNotAboveMin
      ensures |slice| < 2 ==> seed == old(seed)
      ensures |slice| >= 2 ==> seed == Lcg(old(seed))
      ensures |slice| >= 2 ==> r == Ok(Some(slice[seed % |slice|]))
      ensures r == match PickIndex(Lcg(old(seed)), |slice|)
                   case Panic(f) => Panic(f)
                   case Ok(None) => Ok(None)
                   case Ok(Some(i)) => Ok(Some(slice[i]))
    {
      if |slice| == 0 {
        return Ok(None);
      }
      var idx := GenRange(0, |slice| - 1);
      match idx
      case Panic(f) =>
        r := Panic(f);
      case Ok(i) =>
        r := Ok(if i < |slice| then Some(slice[i]) else None);
    }
  }
}
