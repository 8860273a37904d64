/** Loss- and delay-based congestion avoidance: the queue of waiting jobs is estimated
    from how far the latency exceeds the lowest latency ever seen. Additive increase and
    decrease by a step that grows with the limit's order of magnitude; multiplicative
    decrease on overload. */
module Vegas {
  import opened Base
  import Aimd

  const DEFAULT_ALPHA_MULTIPLIER: real := 3.0
  const DEFAULT_BETA_MULTIPLIER: real := 6.0
  const DEFAULT_DECREASE_FACTOR: real := 0.9
  const DEFAULT_INCREASE_MIN_UTILISATION: real := 0.8

  /** `10^k`. */
  function Pow10(k: nat): (r: nat)
    ensures r >= 1
  {
    if k == 0 then 1 else 10 * Pow10(k - 1)
  }

  /** `usize::ilog10`: the number of decimal digits minus one. */
  function ILog10(n: nat): (r: nat)
    requires n >= 1
    ensures Pow10(r) <= n < Pow10(r + 1)
  {
    if n < 10 then 0 else 1 + ILog10(n / 10)
  }

  lemma {:induction false} BelowPow10(k: nat)
    ensures k < Pow10(k)
  {
    if k > 0 {
      BelowPow10(k - 1);
    }
  }

  /** The additive step, `max(ilog10 limit, 1)`. */
  function Increment(limit: nat): (r: nat)
    requires limit >= 1
    ensures 1 <= r <= limit
  {
    BelowPow10(ILog10(limit));
    Max(ILog10(limit), 1)
  }

  /** The default queueing thresholds, built on a base-ten logarithm that the
      floating-point library supplies. */
  function DefaultAlpha(log10: nat -> real, limit: nat): real {
    DEFAULT_ALPHA_MULTIPLIER * RealMax(log10(limit), 1.0)
  }

  function DefaultBeta(log10: nat -> real, limit: nat): real {
    DEFAULT_BETA_MULTIPLIER * RealMax(log10(limit), 1.0)
  }

  /** For every limit the default bands are ordered and positive: `0 < alpha < beta`,
      so the "too much queueing" and "too little queueing" cases never overlap. */
  lemma DefaultBandsOrdered(log10: nat -> real, limit: nat)
    ensures 3.0 <= DefaultAlpha(log10, limit) < DefaultBeta(log10, limit)
  {
  }

  /** `(in_flight / latency) × (latency − base)`: jobs in flight times the fraction of
      the latency that was spent queueing. The unit of time cancels out. */
  function EstimatedQueue(inFlight: nat, latency: nat, base: nat): real
    requires latency > 0
  {
    (inFlight as real / latency as real) * (latency as real - base as real)
  }

  lemma {:induction false} QueueWithinInFlight(inFlight: nat, latency: nat, base: nat)
    requires 0 < latency && base <= latency
    ensures 0.0 <= EstimatedQueue(inFlight, latency, base) <= inFlight as real
  {
    var rate := inFlight as real / latency as real;
    var extra := latency as real - base as real;
    assert rate * latency as real == inFlight as real;
    assert 0.0 <= extra <= latency as real;
    assert rate * extra <= rate * latency as real;
  }

  /** Tuning: bounds and the two thresholds as functions of the limit. */
  datatype Config = Config(minLimit: nat, maxLimit: nat, alpha: nat -> real, beta: nat -> real)

  predicate ValidConfig(c: Config) {
    1 <= c.minLimit <= c.maxLimit
  }

  function DefaultConfig(log10: nat -> real): (c: Config)
    ensures ValidConfig(c)
  {
    Config(DEFAULT_MIN_LIMIT, DEFAULT_MAX_LIMIT,
           (l: nat) => DefaultAlpha(log10, l), (l: nat) => DefaultBeta(log10, l))
  }

  /** The limit decision for one sample, from the estimated queue and the utilisation
      `in_flight / limit`. */
  function Decide(c: Config, limit: nat, queue: real, utilisation: real, outcome: Outcome): (r: nat)
    requires ValidConfig(c) && limit >= 1
    ensures c.minLimit <= r <= c.maxLimit
  {
    var increment := Increment(limit);
    var l :=
      if outcome == Overload then Aimd.MultiplicativeDecrease(limit, DEFAULT_DECREASE_FACTOR)
      else if queue > c.beta(limit) then limit - increment
      else if queue < c.alpha(limit) && utilisation >= DEFAULT_INCREASE_MIN_UTILISATION then limit + increment
      else limit;
    Clamp(l, c.minLimit, c.maxLimit)
  }

  /** The limit decision given the (already updated) base latency. */
  function NextLimit(c: Config, limit: nat, base: nat, s: Sample): (r: nat)
    requires ValidConfig(c) && limit >= 1 && s.latency > 0
    ensures c.minLimit <= r <= c.maxLimit
  {
    Decide(c, limit, EstimatedQueue(s.inFlight, s.latency, base), s.inFlight as real / limit as real, s.outcome)
  }

  /** The state the algorithm keeps: the limit and the lowest latency seen so far. */
  datatype State = State(limit: nat, baseLatency: nat)

  function Initial(initialLimit: nat): State {
    State(initialLimit, DURATION_MAX)
  }

  /** `Vegas::update`: samples below one microsecond are dropped; otherwise the base
      latency becomes the minimum seen and the limit is decided against it. */
  function Next(c: Config, st: State, s: Sample): (r: State)
    requires ValidConfig(c) && st.limit >= 1
    ensures r.limit >= 1
    ensures r.baseLatency <= st.baseLatency
    ensures s.latency < MIN_SAMPLE_LATENCY ==> r == st
    ensures s.latency >= MIN_SAMPLE_LATENCY ==>
              r.baseLatency == Min(st.baseLatency, s.latency) && c.minLimit <= r.limit <= c.maxLimit
  {
    if s.latency < MIN_SAMPLE_LATENCY then st
    else
      var base := if s.latency < st.baseLatency then s.latency else st.baseLatency;
      State(NextLimit(c, st.limit, base, s), base)
  }

  /** The first measurable sample after construction becomes the base latency. */
  lemma ColdStartTakesFirstSample(c: Config, initialLimit: nat, s: Sample)
    requires ValidConfig(c) && initialLimit >= 1
    requires MIN_SAMPLE_LATENCY <= s.latency <= DURATION_MAX
    ensures Next(c, Initial(initialLimit), s).baseLatency == s.latency
  {
  }

  /** Once the base latency has been updated it is at most the sample's latency, so the
      estimated queue lies between zero and the jobs in flight. */
  lemma {:induction false} QueueBoundedAfterUpdate(c: Config, st: State, s: Sample)
    requires ValidConfig(c) && st.limit >= 1 && s.latency >= MIN_SAMPLE_LATENCY
    ensures var base := Next(c, st, s).baseLatency;
            0.0 <= EstimatedQueue(s.inFlight, s.latency, base) <= s.inFlight as real
  {
    QueueWithinInFlight(s.inFlight, s.latency, Next(c, st, s).baseLatency);
  }

  /** Overload is decided first: a multiplicative decrease to 90%, clamped, whatever
      the latencies. */
  lemma {:induction false} OverloadRule(c: Config, limit: nat, queue: real, utilisation: real)
    requires ValidConfig(c) && limit >= 1
    ensures Decide(c, limit, queue, utilisation, Overload)
            == Clamp(Aimd.MultiplicativeDecrease(limit, DEFAULT_DECREASE_FACTOR), c.minLimit, c.maxLimit)
    ensures c.minLimit < limit ==> Decide(c, limit, queue, utilisation, Overload) < limit
  {
    Aimd.DecreaseStrictlyLowers(limit, DEFAULT_DECREASE_FACTOR);
  }

  /** Too much queueing (above beta) on a success lowers the limit by the increment. */
  lemma {:induction false} HighQueueRule(c: Config, limit: nat, queue: real, utilisation: real)
    requires ValidConfig(c) && limit >= 1 && queue > c.beta(limit)
    ensures Decide(c, limit, queue, utilisation, Success) == Clamp(limit - Increment(limit), c.minLimit, c.maxLimit)
    ensures c.minLimit < limit <= c.maxLimit ==> Decide(c, limit, queue, utilisation, Success) < limit
  {
  }

  /** Too little queueing (below alpha, not above beta) with at least 80% of the limit
      in use raises the limit by the increment. */
  lemma {:induction false} LowQueueRule(c: Config, limit: nat, queue: real, utilisation: real)
    requires ValidConfig(c) && limit >= 1
    requires queue <= c.beta(limit) && queue < c.alpha(limit)
    requires utilisation >= DEFAULT_INCREASE_MIN_UTILISATION
    ensures Decide(c, limit, queue, utilisation, Success) == Clamp(limit + Increment(limit), c.minLimit, c.maxLimit)
    ensures c.minLimit <= limit < c.maxLimit ==> Decide(c, limit, queue, utilisation, Success) > limit
  {
  }

  /** Otherwise, on a success the limit is only clamped. */
  lemma {:induction false} SteadyRule(c: Config, limit: nat, queue: real, utilisation: real)
    requires ValidConfig(c) && limit >= 1 && queue <= c.beta(limit)
    requires queue >= c.alpha(limit) || utilisation < DEFAULT_INCREASE_MIN_UTILISATION
    ensures Decide(c, limit, queue, utilisation, Success) == Clamp(limit, c.minLimit, c.maxLimit)
  {
  }

  /** Utilisation of at least 80% is the same as at least 80% of the limit in flight. */
  lemma {:induction false} UtilisationThreshold(inFlight: nat, limit: nat)
    requires limit >= 1
    ensures inFlight as real / limit as real >= DEFAULT_INCREASE_MIN_UTILISATION <==>
            inFlight as real >= DEFAULT_INCREASE_MIN_UTILISATION * limit as real
  {
    RatioCompare(inFlight as real, limit as real, DEFAULT_INCREASE_MIN_UTILISATION);
  }

  /** The unit test's first phase: at a steady 25 ms (no queueing) with nine of ten
      slots in use, the limit of 10 grows by one. */
  lemma SteadyLatencyRaisesLimit(c: Config)
    requires ValidConfig(c) && c.minLimit <= 10 < c.maxLimit && c.alpha(10) > 0.0 && c.beta(10) >= 0.0
    ensures Next(c, State(10, 25 * NANOS_PER_MILLI), Sample(25 * NANOS_PER_MILLI, 9, Success)).limit == 11
  {
    assert ILog10(10) == 1;
    assert EstimatedQueue(9, 25 * NANOS_PER_MILLI, 25 * NANOS_PER_MILLI) == 0.0;
    assert 9 as real / 10 as real >= DEFAULT_INCREASE_MIN_UTILISATION;
  }

  /** The unit test's second phase: ten times the base latency at ten in flight means
      nine queued jobs, above beta for a small limit, so the limit shrinks. */
  lemma TenfoldLatencyLowersLimit(c: Config, limit: nat)
    requires ValidConfig(c) && c.minLimit < limit <= c.maxLimit && c.beta(limit) < 9.0
    ensures Next(c, State(limit, 25 * NANOS_PER_MILLI), Sample(250 * NANOS_PER_MILLI, 10, Success)).limit < limit
  {
    assert EstimatedQueue(10, 250 * NANOS_PER_MILLI, 25 * NANOS_PER_MILLI) == 9.0;
  }

  /** A Vegas limit. The thresholds are functions of the limit, as in the source. */
  class Vegas {
    var config: Config
    var limit: nat
    var baseLatency: nat

    function Current(): State
      reads this
    {
      State(limit, baseLatency)
    }

    ghost predicate Valid()
      reads this
    {
      ValidConfig(config) && config.minLimit == DEFAULT_MIN_LIMIT && limit >= 1
    }

    /** `log10` stands for the floating-point logarithm behind the default thresholds. */
    constructor NewWithInitialLimit(initialLimit: nat, log10: nat -> real)
      requires initialLimit > 0
      ensures Valid() && config == DefaultConfig(log10) && Current() == Initial(initialLimit)
    {
      config := DefaultConfig(log10);
      limit := initialLimit;
      baseLatency := DURATION_MAX;
    }

    method WithMaxLimit(max: nat)
      requires Valid() && max > 0
      modifies this`config
      ensures Valid() && config == old(config).(maxLimit := max)
    {
      config := config.(maxLimit := max);
    }

    function Limit(): nat
      reads this
    {
      limit
    }

    method Update(s: Sample) returns (r: nat)
      requires Valid()
      modifies this`limit, this`baseLatency
      ensures Valid()
      ensures Current() == Next(config, old(Current()), s) && r == limit
    {
      if s.latency < MIN_SAMPLE_LATENCY {
        return limit;
      }
      if s.latency < baseLatency {
        baseLatency := s.latency;
      }
      limit := NextLimit(config, limit, baseLatency, s);
      r := limit;
    }
  }
}
