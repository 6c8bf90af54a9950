/** The library's own test scenarios, as clients of `Rng` that construct
    their generator from a seed. Each states for every seed what the test
    checks for one. */
module Scenarios {
  import opened Engine
  import opened Derivation
  import opened Generator

  /** `test_next_changes_seed`: after one `next` the state differs from the
      seed, here for every seed and not only for 123. */
  method NextChangesSeed(seed: U64) returns (changed: bool)
    ensures changed
  {
    var rng := new Rng(seed);
    var before := rng.seed;
    var _ := rng.Next();
    changed := rng.seed != before;
  }

  /** `test_gen_range_bounds`: `gen_range(10, 20)` lies in [10, 20] for every
      seed; for seed 42 it is 13. */
  method GenRangeBounds(seed: U64) returns (val: U64)
    ensures 10 <= val <= 20
    ensures seed == 42 ==> val == 13
  {
    var rng := new Rng(seed);
    var r := rng.GenRange(10, 20);
    val := r.value;
  }

  /** The upper end is reachable: from seed 6, `gen_range(10, 20)` returns 20,
      so the bound `val < 20` is not something the code guarantees. */
  lemma GenRangeReachesMax()
    ensures RangeMap(Lcg(6), 10, 20) == Ok(20)
  {
  }

  /** `test_gen_bool_distribution`: since `next` flips the parity of the
      state, `gen_bool` alternates, so 1000 samples from any seed hold
      exactly 500 of each value (the test asks only for at least one). */
  method GenBoolDistribution(seed: U64) returns (trues: nat, falses: nat)
    ensures trues == 500 && falses == 500
  {
    var rng := new Rng(seed);
    var p := seed % 2;
    trues, falses := 0, 0;
    for k := 0 to 1000
      invariant trues + falses == k
      invariant rng.seed % 2 == (p + k) % 2
      invariant trues == (k + 1 - p) / 2
    {
      LcgFlipsParity(rng.seed);
      var b := rng.GenBool();
      if b {
        trues := trues + 1;
      } else {
        falses := falses + 1;
      }
    }
  }

  /** `test_shuffle`: while more than one element is left, remove the one at
      `gen_range(0, len - 1)`; then remove the last one. Every index is in
      bounds, the loop ends, the vector ends empty and every element was
      removed exactly once (`removed` records the order). */
  method ShuffleDrain<T>(seed: U64, v: seq<T>) returns (w: seq<T>, ghost removed: seq<T>)
    requires |v| < Two64
    ensures w == []
    ensures multiset(removed) == multiset(v)
  {
    var rng := new Rng(seed);
    w, removed := v, [];
    while |w| > 1
      invariant |w| <= |v|
      invariant multiset(removed) + multiset(w) == multiset(v)
      decreases |w|
    {
      var r := rng.GenRange(0, |w| - 1);
      var idx := r.value;
      assert w == w[..idx] + [w[idx]] + w[idx + 1..];
      removed := removed + [w[idx]];
      w := w[..idx] + w[idx + 1..];
    }
    if |w| != 0 {
      assert w == [w[0]] + w[1..];
      removed := removed + [w[0]];
      w := w[1..];
    }
  }
}
