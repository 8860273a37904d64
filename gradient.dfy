/** Delay-gradient congestion avoidance: the ratio of a long-window average latency to
    the latest latency scales the limit down (never below half), with an additive
    increase when the limit is well used and latency is stable, all smoothed. */
module Gradient {
  import opened Base
  import opened MovingAvg

  const DEFAULT_INCREASE: real := 4.0
  const DEFAULT_INCREASE_MIN_UTILISATION: real := 0.8
  const DEFAULT_INCREASE_MIN_GRADIENT: real := 0.9
  const DEFAULT_LONG_WINDOW_SAMPLES: nat := 500
  const DEFAULT_TOLERANCE: real := 2.0
  const DEFAULT_SMOOTHING: real := 0.2
  /** Above this ratio the long window is pulled down faster. */
  const RESET_RATIO: real := 2.0
  const RESET_FACTOR: real := 0.95

  datatype Config = Config(minLimit: nat, maxLimit: nat)

  predicate ValidConfig(c: Config) {
    1 <= c.minLimit <= c.maxLimit
  }

  /** `long / latency`. */
  function Ratio(long: nat, latency: nat): real
    requires latency > 0
  {
    long as real / latency as real
  }

  /** `(tolerance × ratio).clamp(0.5, 1.0)`: only a latency rise scales the limit down. */
  function GradientOf(ratio: real): real {
    RealClamp(DEFAULT_TOLERANCE * ratio, 0.5, 1.0)
  }

  /** The gradient lies in `[0.5, 1]`; it is 1 exactly when the latest latency is at
      most twice the long-window latency, and 0.5 once it is four times or more. */
  lemma {:induction false} GradientRange(ratio: real)
    ensures 0.5 <= GradientOf(ratio) <= 1.0
    ensures GradientOf(ratio) == 1.0 <==> ratio >= 0.5
    ensures ratio <= 0.25 ==> GradientOf(ratio) == 0.5
  {
  }

  /** The additive increase: applied only to a busy limit under a gentle gradient. */
  function Increase(inFlight: nat, oldLimit: real, gradient: real): real
    requires oldLimit > 0.0
  {
    if inFlight as real / oldLimit > DEFAULT_INCREASE_MIN_UTILISATION
       && gradient > DEFAULT_INCREASE_MIN_GRADIENT
    then DEFAULT_INCREASE
    else 0.0
  }

  /** Blend of the old limit and `old × gradient + increase`. */
  function Smoothed(oldLimit: real, gradient: real, increase: real): real {
    oldLimit * (1.0 - DEFAULT_SMOOTHING) + (oldLimit * gradient + increase) * DEFAULT_SMOOTHING
  }

  /** The floating-point limit after one sample whose ratio has been computed. */
  function LimitStep(c: Config, oldLimit: real, ratio: real, inFlight: nat): (r: real)
    requires ValidConfig(c) && oldLimit > 0.0
    ensures c.minLimit as real <= r <= c.maxLimit as real
  {
    var g := GradientOf(ratio);
    RealClamp(Smoothed(oldLimit, g, Increase(inFlight, oldLimit, g)), c.minLimit as real, c.maxLimit as real)
  }

  /** Without an increase, one sample never raises the limit and, because the gradient
      is at least one half, never cuts it by more than a tenth (before clamping). */
  lemma {:induction false} NoIncreaseCutsAtMostATenth(oldLimit: real, ratio: real)
    requires oldLimit > 0.0
    ensures var s := Smoothed(oldLimit, GradientOf(ratio), 0.0);
            0.9 * oldLimit <= s <= oldLimit
  {
    var g := GradientOf(ratio);
    GradientRange(ratio);
    var k := 0.8 + 0.2 * g;
    assert 0.9 <= k <= 1.0;
    assert Smoothed(oldLimit, g, 0.0) == oldLimit * k;
    MulBetween(oldLimit, 0.9, k, 1.0);
    assert oldLimit * 1.0 == oldLimit;
    assert 0.9 * oldLimit <= oldLimit * k <= oldLimit;
  }

  /** The smoothed limit rises above the old one only when the increase was applied,
      that is at utilisation above 0.8 and gradient above 0.9. */
  lemma {:induction false} RiseNeedsIncrease(oldLimit: real, ratio: real, inFlight: nat)
    requires oldLimit > 0.0
    ensures var g := GradientOf(ratio);
            Smoothed(oldLimit, g, Increase(inFlight, oldLimit, g)) > oldLimit ==>
              inFlight as real > DEFAULT_INCREASE_MIN_UTILISATION * oldLimit && g > DEFAULT_INCREASE_MIN_GRADIENT
  {
    var g := GradientOf(ratio);
    NoIncreaseCutsAtMostATenth(oldLimit, ratio);
    UtilisationCompare(inFlight, oldLimit);
  }

  /** Utilisation above the threshold is the same as in-flight jobs above that share. */
  lemma UtilisationCompare(inFlight: nat, oldLimit: real)
    requires oldLimit > 0.0
    ensures inFlight as real / oldLimit > DEFAULT_INCREASE_MIN_UTILISATION <==>
            inFlight as real > DEFAULT_INCREASE_MIN_UTILISATION * oldLimit
  {
    RatioCompare(inFlight as real, oldLimit, DEFAULT_INCREASE_MIN_UTILISATION);
  }

  /** At steady latency (gradient 1) and high utilisation the limit grows by
      `smoothing × increase` = 0.8 per sample, before clamping. */
  lemma {:induction false} SteadyBusyGrows(oldLimit: real, ratio: real, inFlight: nat)
    requires oldLimit > 0.0 && ratio >= 0.5
    requires inFlight as real > DEFAULT_INCREASE_MIN_UTILISATION * oldLimit
    ensures var g := GradientOf(ratio);
            Smoothed(oldLimit, g, Increase(inFlight, oldLimit, g)) == oldLimit + 0.8
  {
    UtilisationCompare(inFlight, oldLimit);
  }

  /** What the algorithm keeps: the published whole limit, the floating-point limit
      behind it, and the long-window moving average. */
  datatype State = State(limit: nat, smoothed: real, long: ExpState)

  predicate ValidState(c: Config, st: State) {
    st.limit >= 1 && st.smoothed > 0.0 && ValidExp(st.long)
  }

  function Initial(initialLimit: nat): (st: State)
    requires initialLimit > 0
    ensures forall c: Config :: ValidState(c, st)
  {
    State(initialLimit, initialLimit as real, NewExpState(DEFAULT_LONG_WINDOW_SAMPLES))
  }

  /** The long window after taking a sample, pulled down by 5% when it is more than
      twice the latest latency. */
  function NextLong(long: ExpState, latency: nat): (r: ExpState)
    requires ValidExp(long) && latency > 0
    ensures ValidExp(r)
  {
    var sampled := ExpSample(long, latency);
    if Ratio(sampled.value, latency) > RESET_RATIO
    then sampled.(value := FloorNat(sampled.value as real * RESET_FACTOR))
    else sampled
  }

  /** `Gradient::update`. Samples below one microsecond change nothing. The outcome of
      the sample plays no part. The gradient uses the ratio measured before the reset. */
  function Next(c: Config, st: State, s: Sample): (r: State)
    requires ValidConfig(c) && ValidState(c, st)
    ensures ValidState(c, r)
    ensures s.latency < MIN_SAMPLE_LATENCY ==> r == st
    ensures s.latency >= MIN_SAMPLE_LATENCY ==>
              c.minLimit as real <= r.smoothed <= c.maxLimit as real
              && r.limit as real <= r.smoothed < r.limit as real + 1.0
              && c.minLimit <= r.limit <= c.maxLimit
  {
    if s.latency < MIN_SAMPLE_LATENCY then st
    else
      var long := ExpSample(st.long, s.latency).value;
      var smoothed := LimitStep(c, st.smoothed, Ratio(long, s.latency), s.inFlight);
      State(FloorNat(smoothed), smoothed, NextLong(st.long, s.latency))
  }

  /** The published limit is the floating-point limit truncated, and stays in bounds. */
  lemma {:induction false} PublishedIsTruncated(c: Config, st: State, s: Sample)
    requires ValidConfig(c) && ValidState(c, st) && s.latency >= MIN_SAMPLE_LATENCY
    ensures Next(c, st, s).limit == FloorNat(Next(c, st, s).smoothed)
    ensures c.minLimit <= Next(c, st, s).limit <= c.maxLimit
  {
    var r := Next(c, st, s);
    FloorOfNat(c.minLimit);
    FloorOfNat(c.maxLimit);
    FloorMonotone(c.minLimit as real, r.smoothed);
    FloorMonotone(r.smoothed, c.maxLimit as real);
  }

  /** The outcome of a sample never affects the gradient algorithm. */
  lemma OutcomeIgnored(c: Config, st: State, s: Sample, o: Outcome)
    requires ValidConfig(c) && ValidState(c, st)
    ensures Next(c, st, s.(outcome := o)) == Next(c, st, s)
  {
  }

  /** When the long window ends up more than twice the latest latency it is scaled by
      0.95; otherwise it is the plain moving-average step. */
  lemma {:induction false} LongWindowReset(long: ExpState, latency: nat)
    requires ValidExp(long) && latency > 0
    ensures var sampled := ExpSample(long, latency);
            var r := NextLong(long, latency);
            r.initialSum == sampled.initialSum && r.initialCount == sampled.initialCount
            && (sampled.value as real > 2.0 * latency as real ==> r.value < sampled.value)
            && (sampled.value as real <= 2.0 * latency as real ==> r == sampled)
  {
    var sampled := ExpSample(long, latency);
    RatioCompare(sampled.value as real, latency as real, RESET_RATIO);
    assert sampled.value as real * RESET_FACTOR < sampled.value as real || sampled.value == 0;
  }

  /** The unit test's first sample: a fresh limit of 10 at 25 ms with ten jobs in
      flight: the long window becomes 25 ms, the gradient 1, and the limit 10.8. */
  lemma FirstSteadySample()
    ensures var st := Next(Config(DEFAULT_MIN_LIMIT, DEFAULT_MAX_LIMIT), Initial(10),
                           Sample(25 * NANOS_PER_MILLI, 10, Success));
            st.smoothed == 10.8 && st.limit == 10 && st.long.value == 25 * NANOS_PER_MILLI
  {
    var lat := 25 * NANOS_PER_MILLI;
    assert ExpSample(NewExpState(DEFAULT_LONG_WINDOW_SAMPLES), lat).value == lat;
    assert Ratio(lat, lat) == 1.0;
    SteadyBusyGrows(10.0, 1.0, 10);
  }

  /** The unit test's first phase continued: a second 25 ms sample, with nine jobs
      still in flight, keeps the gradient at 1 and the utilisation above 0.8, so the
      floating-point limit reaches 11.6 and the published limit rises above 10 to 11. */
  lemma SecondSteadySamplePublishesEleven()
    ensures var c := Config(DEFAULT_MIN_LIMIT, DEFAULT_MAX_LIMIT);
            var lat := 25 * NANOS_PER_MILLI;
            var st1 := Next(c, Initial(10), Sample(lat, 10, Success));
            var st2 := Next(c, st1, Sample(lat, 9, Success));
            st2.smoothed == 11.6 && st2.limit == 11 && st2.limit > Initial(10).limit
            && st2.long.value == lat
  {
    var c := Config(DEFAULT_MIN_LIMIT, DEFAULT_MAX_LIMIT);
    var lat := 25 * NANOS_PER_MILLI;
    var st1 := Next(c, Initial(10), Sample(lat, 10, Success));
    FirstSteadySample();
    assert st1.long.initialCount == 1 && st1.long.initialSum == lat;
    assert ExpSample(st1.long, lat).value == lat;
    assert Ratio(lat, lat) == 1.0;
    SteadyBusyGrows(10.8, 1.0, 9);
    assert FloorNat(11.6) == 11;
  }

  /** The unit test's second phase: once the long window has warmed up and the latest
      latency is ten times it (with a window of at least nine samples), the limit cannot
      grow and the floating-point limit strictly falls unless it is at the minimum. */
  lemma {:induction false} TenfoldLatencyLowers(c: Config, st: State, s: Sample)
    requires ValidConfig(c) && ValidState(c, st)
    requires st.long.initialCount >= INITIAL_WARMUP_SAMPLES && st.long.smoothingFactor <= 0.2
    requires s.latency >= MIN_SAMPLE_LATENCY && 10 * st.long.value <= s.latency
    requires c.minLimit as real < st.smoothed <= c.maxLimit as real
    ensures Next(c, st, s).smoothed < st.smoothed
  {
    var lat := s.latency;
    var long := ExpSample(st.long, lat).value;
    TenfoldLongWindow(st.long, lat);
    RatioCompare(long as real, lat as real, 0.3);
    SharpRiseLowers(c, st.smoothed, Ratio(long, lat), s.inFlight);
  }

  /** A sample at least `1 / 0.3` times the long window sets a gradient of at most 0.6,
      which rules out the increase and lowers a limit above the minimum. */
  lemma {:induction false} SharpRiseLowers(c: Config, oldLimit: real, ratio: real, inFlight: nat)
    requires ValidConfig(c) && c.minLimit as real < oldLimit <= c.maxLimit as real && ratio <= 0.3
    ensures LimitStep(c, oldLimit, ratio, inFlight) < oldLimit
  {
    var g := GradientOf(ratio);
    assert g <= 0.6;
    assert Increase(inFlight, oldLimit, g) == 0.0;
    var k := 0.8 + 0.2 * g;
    assert Smoothed(oldLimit, g, 0.0) == oldLimit * k;
    MulStrict(oldLimit, k, 1.0);
  }

  /** After warm-up, a sample ten times the average moves it to at most 0.3 of the
      sample when the smoothing factor is at most 0.2. */
  lemma TenfoldLongWindow(long: ExpState, lat: nat)
    requires ValidExp(long) && long.initialCount >= INITIAL_WARMUP_SAMPLES && long.smoothingFactor <= 0.2
    requires 10 * long.value <= lat
    ensures ExpSample(long, lat).value as real <= 0.3 * lat as real
  {
    assert ExpSample(long, lat).value == Smooth(long.value, lat, long.smoothingFactor);
    SmoothTowardsTenfold(long.value, lat, long.smoothingFactor);
  }

  lemma SmoothTowardsTenfold(v: nat, lat: nat, f: real)
    requires 0.0 < f <= 0.2 && 10 * v <= lat
    ensures Smooth(v, lat, f) as real <= 0.3 * lat as real
  {
    var d := lat - v;
    var step := Scaled(d, f);
    assert Smooth(v, lat, f) == v + step;
    assert step as real <= d as real * f;
    MulBetween(d as real, f, f, 0.2);
    assert step as real <= 0.2 * (lat as real - v as real);
    assert (v + step) as real <= 0.8 * v as real + 0.2 * lat as real;
    assert 10.0 * v as real <= lat as real;
  }

  /** A gradient limit. The long window is a moving-average object it owns. */
  class Gradient {
    var config: Config
    var limit: nat
    var smoothed: real
    const longWindow: ExpSmoothed

    function Current(): State
      reads this, longWindow
    {
      State(limit, smoothed, longWindow.State())
    }

    ghost predicate Valid()
      reads this, longWindow
    {
      ValidConfig(config) && config.minLimit == DEFAULT_MIN_LIMIT
      && longWindow.Valid() && ValidState(config, Current())
    }

    constructor NewWithInitialLimit(initialLimit: nat)
      requires initialLimit > 0
      ensures Valid() && fresh(longWindow)
      ensures config == Config(DEFAULT_MIN_LIMIT, DEFAULT_MAX_LIMIT) && Current() == Initial(initialLimit)
    {
      config := Config(DEFAULT_MIN_LIMIT, DEFAULT_MAX_LIMIT);
      limit := initialLimit;
      smoothed := initialLimit as real;
      longWindow := new ExpSmoothed.NewWithWindowSize(DEFAULT_LONG_WINDOW_SAMPLES);
    }

    method WithMaxLimit(max: nat)
      requires Valid() && max > 0
      modifies this`config
      ensures Valid() && config == old(config).(maxLimit := max)
    {
      config := config.(maxLimit := max);
    }

    function Limit(): nat
      reads this
    {
      limit
    }

    method Update(s: Sample) returns (r: nat)
      requires Valid()
      modifies this`limit, this`smoothed, longWindow
      ensures Valid()
      ensures Current() == Next(config, old(Current()), s) && r == limit
    {
      if s.latency < MIN_SAMPLE_LATENCY {
        return limit;
      }
      var long := longWindow.Sample(s.latency);
      var ratio := Ratio(long, s.latency);
      if ratio > RESET_RATIO {
        longWindow.Set(FloorNat(long as real * RESET_FACTOR));
      }
      smoothed := LimitStep(config, smoothed, ratio, s.inFlight);
      limit := FloorNat(smoothed);
      r := limit;
    }
  }
}
