/** The derivation layer: how one raw state value (the result of one `next`)
    becomes a bounded integer, a boolean, a fixed-width integer or an index
    into a slice. Each function here is the pure part of an `RNG` method; the
    methods in module Generator pair it with the state advance (made once,
    except by `pick_random` on an empty slice and by a panicking call).

    Rust's panics are values of `Outcome`: a panic ends the call with a
    `Fault` that names its cause, never with a clamped or default value. */
module Derivation {
  import opened Engine

  datatype Option<T> = None | Some(value: T)

  /** Why a call panics. */
  datatype Fault =
    | MaxNotAboveMin   // `gen_range` with `max <= min`
    | SpanOverflow     // `max - min + 1` overflows `u64`
    | UnsupportedSize  // a bit size other than 8, 16, 32 or 64

  datatype Outcome<T> = Ok(value: T) | Panic(fault: Fault)

  /** `gen_range` without its advance: map the raw value onto the inclusive
      range [min, max] by `raw % (max - min + 1) + min`. Refuses `max <= min`
      and the one pair, `min == 0` with `max == u64::MAX`, whose span does not
      fit in a `u64`. */
  function RangeMap(raw: U64, min: U64, max: U64): (r: Outcome<U64>)
    ensures r == Panic(MaxNotAboveMin) <==> max <= min
    ensures r == Panic(SpanOverflow) <==> min == 0 && max == Two64 - 1
    ensures r.Ok? <==> min < max && !(min == 0 && max == Two64 - 1)
    ensures r.Ok? ==> min <= r.value <= max
  {
    if max <= min then Panic(MaxNotAboveMin)
    else if max - min + 1 >= Two64 then Panic(SpanOverflow)
    else Ok(raw % (max - min + 1) + min)
  }

  /** Modulo mapping is onto: every value of a valid range, the two ends
      included, is produced by some raw `u64` value. This is a fact about the
      map alone: `next` only ever yields values below 2^32, so for spans wider
      than 2^32 `gen_range` itself never returns more than `min + 2^32 - 1`. */
  lemma RangeMapReachesEveryValue(min: U64, max: U64, target: U64)
    requires min < max && !(min == 0 && max == Two64 - 1)
    requires min <= target <= max
    ensures RangeMap(target - min, min, max) == Ok(target)
  {
    ModUnique(target - min, max - min + 1, 0, target - min);
  }

  /** `gen_bool` without its advance: `raw & 1 == 1`, which holds exactly
      when the raw value is odd. */
  function LowBit(raw: U64): (b: bool)
    ensures b <==> raw % 2 == 1
  {
    (raw as bv64) & 1 == 1
  }

  /** The bit sizes the fixed-width derivations accept. */
  predicate SupportedSize(size: U8) {
    size == 8 || size == 16 || size == 32 || size == 64
  }

  /** 2^size for a supported size. */
  function Modulus(size: U8): (m: int)
    requires SupportedSize(size)
    ensures 1 < m <= Two64 && m % 2 == 0
  {
    match size
    case 8 => 0x100
    case 16 => 0x1_0000
    case 32 => 0x1_0000_0000
    case _ => 0x1_0000_0000_0000_0000
  }

  /** `gen_unsigned` without its advance: `raw as uN as usize`, the low `size`
      bits zero-extended. Every other size panics. */
  function Unsigned(raw: U64, size: U8): (r: Outcome<U64>)
    ensures r.Panic? <==> !SupportedSize(size)
    ensures r.Panic? ==> r.fault == UnsupportedSize
    ensures r.Ok? ==> r.value < Modulus(size) && (raw - r.value) % Modulus(size) == 0
  {
    if !SupportedSize(size) then Panic(UnsupportedSize)
    else
      var m := Modulus(size);
      ModUnique(raw - raw % m, m, raw / m, 0);
      Ok(raw % m)
  }

  /** `gen_signed` without its advance: `raw as iN as isize`, the low `size`
      bits read as a two's-complement number of that width and sign-extended.
      Every other size panics. */
  function Signed(raw: U64, size: U8): (r: Outcome<I64>)
    ensures r.Panic? <==> !SupportedSize(size)
    ensures r.Panic? ==> r.fault == UnsupportedSize
    ensures r.Ok? ==> -(Modulus(size) / 2) <= r.value < Modulus(size) / 2
    ensures r.Ok? ==> (raw - r.value) % Modulus(size) == 0
  {
    if !SupportedSize(size) then Panic(UnsupportedSize)
    else
      var m := Modulus(size);
      var low := raw % m;
      if low < m / 2 then
        ModUnique(raw - low, m, raw / m, 0);
        Ok(low)
      else
        ModUnique(raw - (low - m), m, raw / m + 1, 0);
        Ok(low - m)
  }

  /** Casting the signed result back to the unsigned type of the same width
      (`as iN as uN`) recovers exactly what `gen_unsigned` returns: the two
      derivations read the same low bits. */
  lemma SignedRoundTripsToUnsigned(raw: U64, size: U8)
    requires SupportedSize(size)
    ensures Signed(raw, size).value % Modulus(size) == Unsigned(raw, size).value
  {
    var m := Modulus(size);
    var u, v := Unsigned(raw, size).value, Signed(raw, size).value;
    var a, b := (raw - u) / m, (raw - v) / m;
    ModUnique(raw - u, m, a, 0);
    ModUnique(raw - v, m, b, 0);
    assert v == (a - b) * m + u;
    ModUnique(v, m, a - b, u);
  }

  /** The low bit survives every truncation: `gen_bool` is the parity of what
      `gen_unsigned` would have returned from the same state, at every size. */
  lemma LowBitIsParityOfUnsigned(raw: U64, size: U8)
    requires SupportedSize(size)
    ensures LowBit(raw) <==> Unsigned(raw, size).value % 2 == 1
  {
    var m := Modulus(size);
    var u := Unsigned(raw, size).value;
    var k := (raw - u) / m;
    assert raw == k * m + u;
    assert k * m == 2 * (k * (m / 2));
    ModUnique(raw, 2, k * (m / 2) + u / 2, u % 2);
  }

  /** `pick_random` without its advance: `None` for an empty slice, otherwise
      the index `gen_range(0, len - 1)` chooses, looked up with `slice.get`.
      A slice of length one panics, because `gen_range(0, 0)` does. */
  function PickIndex(raw: U64, len: U64): (r: Outcome<Option<U64>>)
    ensures r == Ok(None) <==> len == 0
    ensures r.Panic? <==> len == 1
    ensures r.Panic? ==> r.fault == MaxNotAboveMin
    ensures r.Ok? && r.value.Some? ==> r.value.value < len && r.value.value == raw % len
  {
    if len == 0 then Ok(None)
    else
      match RangeMap(raw, 0, len - 1)
      case Panic(f) => Panic(f)
      case Ok(idx) => Ok(if idx < len then Some(idx) else None)
  }
}
