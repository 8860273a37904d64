/** Moving averages over durations: exponential smoothing with a warm-up average, and a
    simple average over a bounded window. */
module MovingAvg {
  import opened Base

  /** The number of samples averaged before exponential smoothing starts. */
  const INITIAL_WARMUP_SAMPLES: nat := 10
  const U16_MAX: nat := 65535

  /** `2 / (k + 1)`, the smoothing factor of a window of `k` samples. */
  function SmoothingForWindow(k: nat): (r: real)
    requires 0 < k < U16_MAX
    ensures 0.0 < r <= 1.0
    ensures r * (k + 1) as real == 2.0
  {
    2.0 / (k + 1) as real
  }

  /** The fields of an exponential moving average. */
  datatype ExpState = ExpState(smoothingFactor: real, value: nat, initialSum: nat, initialCount: nat)

  predicate ValidExp(st: ExpState) {
    0.0 < st.smoothingFactor <= 1.0 && st.initialCount <= INITIAL_WARMUP_SAMPLES
  }

  function NewExpState(k: nat): (st: ExpState)
    requires 0 < k < U16_MAX
    ensures ValidExp(st)
  {
    ExpState(SmoothingForWindow(k), 0, 0, 0)
  }

  /** `d.mul_f64(α)` for `α` in `[0, 1]`: the scaled duration, truncated to whole
      nanoseconds, never longer than `d`. */
  function Scaled(d: nat, factor: real): (r: nat)
    requires 0.0 <= factor <= 1.0
    ensures r <= d
  {
    ScaleBelow(d as real, factor);
    var r := FloorNat(d as real * factor);
    assert r as real <= d as real;
    r
  }

  /** One smoothing step, moving the value towards the sample by `α` of the distance
      between them, in whichever direction the sample lies. The result always lies
      between the old value and the sample. */
  function Smooth(value: nat, sample: nat, factor: real): (r: nat)
    requires 0.0 <= factor <= 1.0
    ensures Min(value, sample) <= r <= Max(value, sample)
  {
    if sample >= value then value + Scaled(sample - value, factor)
    else value - Scaled(value - sample, factor)
  }

  lemma ScaleBelow(d: real, f: real)
    requires d >= 0.0 && 0.0 <= f <= 1.0
    ensures 0.0 <= d * f <= d
  {
    assert d * (1.0 - f) >= 0.0;
  }

  /** `ExpSmoothed::sample`: an average of the first ten samples, then smoothing. */
  function ExpSample(st: ExpState, sample: nat): (r: ExpState)
    requires ValidExp(st)
    ensures ValidExp(r) && r.smoothingFactor == st.smoothingFactor
    ensures r.initialCount == Min(st.initialCount + 1, INITIAL_WARMUP_SAMPLES)
    ensures st.initialCount < INITIAL_WARMUP_SAMPLES ==>
              r.initialSum == st.initialSum + sample && r.value == r.initialSum / r.initialCount
    ensures st.initialCount >= INITIAL_WARMUP_SAMPLES ==>
              r.initialSum == st.initialSum && Min(st.value, sample) <= r.value <= Max(st.value, sample)
  {
    if st.initialCount < INITIAL_WARMUP_SAMPLES then
      var sum := st.initialSum + sample;
      var count := st.initialCount + 1;
      st.(initialSum := sum, initialCount := count, value := sum / count)
    else
      st.(value := Smooth(st.value, sample, st.smoothingFactor))
  }

  /** Feeds samples one after another. */
  function ExpSampleAll(st: ExpState, samples: seq<nat>): (r: ExpState)
    requires ValidExp(st)
    ensures ValidExp(r)
    decreases |samples|
  {
    if samples == [] then st
    else ExpSampleAll(ExpSample(st, samples[0]), samples[1..])
  }

  lemma {:induction false} ExpSampleAllSnoc(st: ExpState, samples: seq<nat>, x: nat)
    requires ValidExp(st)
    ensures ExpSampleAll(st, samples + [x]) == ExpSample(ExpSampleAll(st, samples), x)
    decreases |samples|
  {
    if samples == [] {
      assert [] + [x] == [x];
    } else {
      assert (samples + [x])[1..] == samples[1..] + [x];
      ExpSampleAllSnoc(ExpSample(st, samples[0]), samples[1..], x);
    }
  }

  /** During warm-up the smoothed value is the (floored) mean of every sample so far,
      and the warm-up counter counts them. */
  lemma {:induction false} WarmupIsMean(k: nat, samples: seq<nat>)
    requires 0 < k < U16_MAX && 0 < |samples| <= INITIAL_WARMUP_SAMPLES
    ensures ExpSampleAll(NewExpState(k), samples).initialCount == |samples|
    ensures ExpSampleAll(NewExpState(k), samples).initialSum == SumOf(samples)
    ensures ExpSampleAll(NewExpState(k), samples).value == SumOf(samples) / |samples|
    decreases |samples|
  {
    var init := samples[..|samples| - 1];
    var x := samples[|samples| - 1];
    assert samples == init + [x];
    ExpSampleAllSnoc(NewExpState(k), init, x);
    if init != [] {
      WarmupIsMean(k, init);
    }
  }

  /** `ExpSmoothed::sample` exactly as written: after warm-up it computes the unsigned
      `Duration` difference `sample − value`, which panics (here: `None`) whenever the
      sample is below the current value. */
  function ExpSampleAsWritten(st: ExpState, sample: nat): (r: Option<ExpState>)
    requires ValidExp(st)
    ensures r == None <==> st.initialCount >= INITIAL_WARMUP_SAMPLES && sample < st.value
  {
    if st.initialCount < INITIAL_WARMUP_SAMPLES then Some(ExpSample(st, sample))
    else if sample < st.value then None
    else Some(st.(value := st.value + Scaled(sample - st.value, st.smoothingFactor)))
  }

  /** Wherever the source does not panic, it computes the same state as `ExpSample`. */
  lemma AsWrittenAgreesWhenDefined(st: ExpState, sample: nat)
    requires ValidExp(st) && ExpSampleAsWritten(st, sample).Some?
    ensures ExpSampleAsWritten(st, sample) == Some(ExpSample(st, sample))
  {
  }

  /** Ten samples of 25 ms then one of 10 ms: the long window of a gradient limit sees
      exactly this when latency improves, and the source panics on it. */
  lemma WarmupThenFasterSamplePanics()
    ensures ExpSampleAsWritten(ExpSampleAll(NewExpState(500), seq(10, _ => 25 * NANOS_PER_MILLI)),
                               10 * NANOS_PER_MILLI) == None
    ensures var st := ExpSampleAll(NewExpState(500), seq(10, _ => 25 * NANOS_PER_MILLI));
            10 * NANOS_PER_MILLI <= ExpSample(st, 10 * NANOS_PER_MILLI).value <= 25 * NANOS_PER_MILLI
  {
    var xs := seq(10, _ => 25 * NANOS_PER_MILLI);
    WarmupIsMean(500, xs);
    SumOfConstant(10, 25 * NANOS_PER_MILLI);
  }

  lemma {:induction false} SumOfConstant(n: nat, x: nat)
    ensures SumOf(seq(n, _ => x)) == n * x
  {
    if n > 0 {
      var xs := seq(n, _ => x);
      assert xs[..n - 1] == seq(n - 1, _ => x);
      SumOfConstant(n - 1, x);
    }
  }

  /** An exponential moving average of durations. */
  class ExpSmoothed {
    const smoothingFactor: real
    var value: nat
    var initialSum: nat
    var initialCount: nat

    function State(): ExpState
      reads this
    {
      ExpState(smoothingFactor, value, initialSum, initialCount)
    }

    ghost predicate Valid()
      reads this
    {
      ValidExp(State())
    }

    constructor NewWithWindowSize(k: nat)
      requires 0 < k < U16_MAX
      ensures Valid() && State() == NewExpState(k)
    {
      smoothingFactor := SmoothingForWindow(k);
      value := 0;
      initialSum := 0;
      initialCount := 0;
    }

    method Sample(sample: nat) returns (r: nat)
      requires Valid()
      modifies this
      ensures Valid()
      ensures State() == ExpSample(old(State()), sample) && r == value
    {
      if initialCount < INITIAL_WARMUP_SAMPLES {
        initialSum := initialSum + sample;
        initialCount := initialCount + 1;
        value := initialSum / initialCount;
      } else {
        value := Smooth(value, sample, smoothingFactor);
      }
      r := value;
    }

    /** Overwrites the current value; the warm-up counters are left alone. */
    method Set(v: nat)
      requires Valid()
      modifies this`value
      ensures Valid() && State() == old(State()).(value := v)
    {
      value := v;
    }
  }

  /** The most recent `n` elements of `h`. */
  function LastN(h: seq<nat>, n: nat): (r: seq<nat>)
    ensures |r| == Min(|h|, n)
    ensures r == h[|h| - |r|..]
  {
    if |h| <= n then h else h[|h| - n..]
  }

  lemma LastNSnoc(h: seq<nat>, n: nat, x: nat)
    requires n > 0
    ensures |LastN(h, n)| < n ==> LastN(h + [x], n) == LastN(h, n) + [x]
    ensures |LastN(h, n)| >= n ==> LastN(h + [x], n) == LastN(h, n)[1..] + [x]
  {
    var h' := h + [x];
    if |h| < n {
      assert LastN(h', n) == h';
    } else {
      assert LastN(h', n) == h'[|h'| - n..];
      assert LastN(h, n)[1..] == h[|h| - n + 1..];
      assert h'[|h'| - n..] == h[|h| - n + 1..] + [x];
    }
  }

  /** While the window fills, the average of `count` values absorbs one more:
      `(sample + count × avg) / (count + 1)`. */
  function FillingAverage(avg: nat, count: nat, sample: nat): nat
  {
    (sample + count * avg) / (count + 1)
  }

  /** Once the window is full, the oldest value `prev` is swapped for the new sample:
      `avg + (sample − prev) / count`. */
  function SlidingAverage(avg: nat, count: nat, prev: nat, sample: nat): (r: nat)
    requires count > 0 && sample >= prev
    ensures avg <= r
  {
    avg + (sample - prev) / count
  }

  lemma SumOfSnoc(xs: seq<nat>, x: nat)
    ensures SumOf(xs + [x]) == SumOf(xs) + x
  {
    assert (xs + [x])[..|xs|] == xs;
  }

  lemma {:induction false} SumOfFront(xs: seq<nat>)
    requires xs != []
    ensures SumOf(xs) == xs[0] + SumOf(xs[1..])
    decreases |xs|
  {
    if |xs| > 1 {
      var init := xs[..|xs| - 1];
      SumOfFront(init);
      assert init[1..] == xs[1..][..|xs[1..]| - 1];
    } else {
      assert xs[1..] == [] && xs[..0] == [];
    }
  }

  /** A window of `count` values whose average is at most their mean keeps that
      property when it absorbs one more sample: the division rounds down. */
  lemma FillingStaysBelowMean(avg: nat, count: nat, sample: nat, total: nat)
    requires count * avg <= total
    ensures (count + 1) * FillingAverage(avg, count, sample) <= total + sample
  {
    var n := sample + count * avg;
    var q := n / (count + 1);
    assert (count + 1) * q + n % (count + 1) == n;
  }

  /** The same once the window is full: swapping `prev` for `sample` adds
      `(sample − prev) / count`, rounded down, to an average of `count` values. */
  lemma SlidingStaysBelowMean(avg: nat, count: nat, prev: nat, sample: nat, total: nat)
    requires count > 0 && sample >= prev && count * avg <= total
    ensures count * SlidingAverage(avg, count, prev, sample) + prev <= total + sample
  {
    var d := sample - prev;
    var q := d / count;
    assert count * q + d % count == d;
    assert count * (avg + q) == count * avg + count * q;
  }

  /** From `n × a ≤ t` follows `a ≤ t / n`. */
  lemma AtMostQuotient(a: nat, n: nat, t: nat)
    requires n > 0 && n * a <= t
    ensures a <= t / n
  {
    MulMono(1, n, t);
    DivBetween(t, n, a, t);
  }

  /** A simple moving average over the latest `window_size` samples. */
  class Simple {
    const windowSize: nat
    var values: seq<nat>
    var avg: nat
    /** Every sample since construction. */
    ghost var history: seq<nat>

    ghost predicate Valid()
      reads this
    {
      0 < windowSize <= U16_MAX && values == LastN(history, windowSize)
      && |values| * avg <= SumOf(values)
    }

    constructor NewWithWindowSize(windowSize: nat)
      requires 0 < windowSize <= U16_MAX
      ensures Valid() && this.windowSize == windowSize
      ensures values == [] && avg == 0 && history == []
    {
      this.windowSize := windowSize;
      values := [];
      avg := 0;
      history := [];
    }

    /** Once the window is full the oldest value is popped before the new one is pushed.
        The source subtracts `sample − prev` as unsigned durations, which panics when the
        popped value is larger; the second precondition rules that out. */
    method Sample(sample: nat) returns (r: nat)
      requires Valid()
      requires |values| >= windowSize ==> sample >= values[0]
      modifies this
      ensures Valid() && history == old(history) + [sample]
      ensures |old(values)| < windowSize ==>
                values == old(values) + [sample]
                && avg == FillingAverage(old(avg), |old(values)|, sample)
      ensures |old(values)| >= windowSize ==>
                values == old(values)[1..] + [sample]
                && avg == SlidingAverage(old(avg), |old(values)|, old(values)[0], sample)
      ensures r == avg && |values| > 0 && avg <= SumOf(values) / |values|
    {
      var count := |values|;
      ghost var h := history;
      LastNSnoc(h, windowSize, sample);
      if count >= windowSize {
        var prev := values[0];
        SumOfFront(values);
        SumOfSnoc(values[1..], sample);
        SlidingStaysBelowMean(avg, count, prev, sample, SumOf(values));
        values := values[1..] + [sample];
        avg := SlidingAverage(avg, count, prev, sample);
      } else {
        SumOfSnoc(values, sample);
        FillingStaysBelowMean(avg, count, sample, SumOf(values));
        values := values + [sample];
        avg := FillingAverage(avg, count, sample);
      }
      AtMostQuotient(avg, |values|, SumOf(values));
      history := h + [sample];
      assert values == LastN(history, windowSize);
      r := avg;
    }
  }
}
