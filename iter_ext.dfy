/** The mean of a sequence of durations used by the test suite: the sum divided by the
    count, with the count converted to a 32-bit divisor. */
module IterExt {
  import opened Base

  const U32_MODULUS: nat := 0x1_0000_0000

  /** What `Mean for Duration` yields for the items `xs`: zero for none, otherwise the
      sum divided by `count as u32`, which truncates the count modulo 2^32 and panics
      (here: `None`) when that truncation leaves zero. Durations divide to the
      nanosecond, rounding down. */
  function MeanOf(xs: seq<nat>): (r: Option<nat>)
    ensures r.None? <==> |xs| > 0 && |xs| % U32_MODULUS == 0
    ensures xs == [] ==> r == Some(0)
  {
    if xs == [] then Some(0)
    else
      var divisor: nat := |xs| % U32_MODULUS;
      if divisor == 0 then None else var mean: nat := SumOf(xs) / divisor; Some(mean)
  }

  /** `Mean for Duration`: one pass adding up the items and counting them. */
  method Mean(xs: seq<nat>) returns (r: Option<nat>)
    ensures r == MeanOf(xs)
  {
    var sum: nat := 0;
    var count: nat := 0;
    for k := 0 to |xs|
      invariant sum == SumOf(xs[..k]) && count == k
    {
      SumOfPrefix(xs, k);
      sum := sum + xs[k];
      count := count + 1;
    }
    assert xs[..|xs|] == xs;
    assert sum == SumOf(xs) && count == |xs|;
    if count > 0 {
      var divisor: nat := count % U32_MODULUS;
      if divisor == 0 {
        r := None;
      } else {
        var mean: nat := sum / divisor;
        assert MeanOf(xs) == Some(mean);
        r := Some(mean);
      }
    } else {
      r := Some(sum);
    }
  }

  lemma SumOfPrefix(xs: seq<nat>, k: nat)
    requires k < |xs|
    ensures SumOf(xs[..k + 1]) == SumOf(xs[..k]) + xs[k]
  {
    assert xs[..k + 1][..k] == xs[..k];
  }

  lemma {:induction false} SumAtLeast(xs: seq<nat>, lo: nat)
    requires forall k | 0 <= k < |xs| :: lo <= xs[k]
    ensures |xs| * lo <= SumOf(xs)
    decreases |xs|
  {
    if xs != [] {
      var n := |xs| - 1;
      var init := xs[..n];
      assert forall k | 0 <= k < n :: init[k] == xs[k];
      SumAtLeast(init, lo);
      assert |xs| * lo == n * lo + lo;
    }
  }

  lemma {:induction false} SumAtMost(xs: seq<nat>, hi: nat)
    requires forall k | 0 <= k < |xs| :: xs[k] <= hi
    ensures SumOf(xs) <= |xs| * hi
    decreases |xs|
  {
    if xs != [] {
      var n := |xs| - 1;
      var init := xs[..n];
      assert forall k | 0 <= k < n :: init[k] == xs[k];
      SumAtMost(init, hi);
      assert |xs| * hi == n * hi + hi;
    }
  }

  /** With fewer than 2^32 items the mean is defined and lies within any bounds that
      hold for every item, so between the smallest and the largest. */
  lemma MeanWithinBounds(xs: seq<nat>, lo: nat, hi: nat)
    requires 0 < |xs| < U32_MODULUS
    requires forall k | 0 <= k < |xs| :: lo <= xs[k] <= hi
    ensures MeanOf(xs).Some? && lo <= MeanOf(xs).value <= hi
  {
    assert |xs| % U32_MODULUS == |xs|;
    SumAtLeast(xs, lo);
    SumAtMost(xs, hi);
    DivBetween(SumOf(xs), |xs|, lo, hi);
  }

  /** With 2^32 + 1 items the divisor wraps to 1 and the "mean" is the sum. */
  lemma WrappedCountYieldsSum(xs: seq<nat>)
    requires |xs| == U32_MODULUS + 1
    ensures MeanOf(xs) == Some(SumOf(xs))
  {
    assert |xs| % U32_MODULUS == 1;
  }

  /** The mean of 10 ms, 20 ms and 40 ms rounds down to 23333333 ns. */
  lemma MeanOfThree()
    ensures MeanOf([10 * NANOS_PER_MILLI, 20 * NANOS_PER_MILLI, 40 * NANOS_PER_MILLI]) == Some(23_333_333)
  {
    var xs := [10 * NANOS_PER_MILLI, 20 * NANOS_PER_MILLI, 40 * NANOS_PER_MILLI];
    assert xs[..2] == [10 * NANOS_PER_MILLI, 20 * NANOS_PER_MILLI];
    assert xs[..2][..1] == [10 * NANOS_PER_MILLI] && xs[..2][..1][..0] == [];
    assert SumOf(xs[..2][..1]) == 10 * NANOS_PER_MILLI;
    assert SumOf(xs[..2]) == 30 * NANOS_PER_MILLI;
    assert SumOf(xs) == 70 * NANOS_PER_MILLI;
  }
}
