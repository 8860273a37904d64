/** Loss-based congestion avoidance: additive increase, multiplicative decrease. */
module Aimd {
  import opened Base

  const DEFAULT_DECREASE_FACTOR: real := 0.9
  const DEFAULT_INCREASE: nat := 1
  const DEFAULT_INCREASE_MIN_UTILISATION: real := 0.8

  /** The tuning of an AIMD limit; the builders below change one field each. */
  datatype Config = Config(
    minLimit: nat,
    maxLimit: nat,
    decreaseFactor: real,
    increaseBy: nat,
    minUtilisationThreshold: real)

  /** What the constructor and builders guarantee about a configuration. */
  predicate ValidConfig(c: Config) {
    1 <= c.minLimit <= c.maxLimit
    && 0.5 <= c.decreaseFactor < 1.0
    && c.increaseBy > 0
    && 0.0 < c.minUtilisationThreshold < 1.0
  }

  function DefaultConfig(): (c: Config)
    ensures ValidConfig(c)
  {
    Config(DEFAULT_MIN_LIMIT, DEFAULT_MAX_LIMIT, DEFAULT_DECREASE_FACTOR, DEFAULT_INCREASE,
           DEFAULT_INCREASE_MIN_UTILISATION)
  }

  /** `floor(limit × factor)`: flooring (not rounding) makes small limits shrink too. */
  function MultiplicativeDecrease(limit: nat, factor: real): (r: nat)
    requires 0.0 <= factor
    ensures r as real <= limit as real * factor < r as real + 1.0
  {
    FloorNat(limit as real * factor)
  }

  lemma {:induction false} DecreaseStrictlyLowers(limit: nat, factor: real)
    requires limit >= 1 && 0.0 <= factor < 1.0
    ensures MultiplicativeDecrease(limit, factor) < limit
  {
    var r := MultiplicativeDecrease(limit, factor);
    assert limit as real * factor < limit as real * 1.0;
  }

  /** With a factor of at least one half, a decrease never more than halves the limit. */
  lemma {:induction false} DecreaseAtLeastHalf(limit: nat, factor: real)
    requires 0.5 <= factor
    ensures MultiplicativeDecrease(limit, factor) >= limit / 2
  {
    var h := limit / 2;
    assert h as real * 2.0 <= limit as real;
    assert h as real <= limit as real * 0.5 <= limit as real * factor;
  }

  /** Utilisation of the current limit by the jobs in flight. */
  function Utilisation(inFlight: nat, limit: nat): real
    requires limit > 0
  {
    inFlight as real / limit as real
  }

  /** The new limit after one sample (the body of the read-modify-write on `limit`). */
  function Next(c: Config, limit: nat, s: Sample): (r: nat)
    requires ValidConfig(c) && limit > 0
    ensures r > 0
  {
    match s.outcome
    case Success =>
      if Utilisation(s.inFlight, limit) > c.minUtilisationThreshold
      then Clamp(limit + c.increaseBy, c.minLimit, c.maxLimit)
      else limit
    case Overload =>
      Clamp(MultiplicativeDecrease(limit, c.decreaseFactor), c.minLimit, c.maxLimit)
  }

  /** An overload moves the limit to the clamped floor of `limit × decrease_factor`. */
  lemma {:induction false} OverloadDecreases(c: Config, limit: nat, s: Sample)
    requires ValidConfig(c) && limit > 0 && s.outcome == Overload
    ensures c.minLimit <= Next(c, limit, s) <= c.maxLimit
    ensures Next(c, limit, s) == Max(c.minLimit, Min(c.maxLimit, (limit as real * c.decreaseFactor).Floor))
    ensures c.minLimit < limit ==> Next(c, limit, s) < limit
  {
    DecreaseStrictlyLowers(limit, c.decreaseFactor);
  }

  /** A success with high utilisation adds `increase_by` (clamped); any other success
      leaves the limit exactly as it was, without re-clamping it. */
  lemma {:induction false} SuccessRule(c: Config, limit: nat, s: Sample)
    requires ValidConfig(c) && limit > 0 && s.outcome == Success
    ensures s.inFlight as real > c.minUtilisationThreshold * limit as real ==>
              Next(c, limit, s) == Max(c.minLimit, Min(c.maxLimit, limit + c.increaseBy))
    ensures s.inFlight as real <= c.minUtilisationThreshold * limit as real ==>
              Next(c, limit, s) == limit
  {
    RatioCompare(s.inFlight as real, limit as real, c.minUtilisationThreshold);
  }

  /** A limit inside `[min_limit, max_limit]` stays inside after any sample. */
  lemma {:induction false} NextKeepsBounds(c: Config, limit: nat, s: Sample)
    requires ValidConfig(c) && c.minLimit <= limit <= c.maxLimit
    ensures c.minLimit <= Next(c, limit, s) <= c.maxLimit
  {
  }

  /** An in-bounds limit never decreases on success and never increases on overload. */
  lemma {:induction false} NextDirection(c: Config, limit: nat, s: Sample)
    requires ValidConfig(c) && c.minLimit <= limit <= c.maxLimit
    ensures s.outcome == Success ==> Next(c, limit, s) >= limit
    ensures s.outcome == Overload ==> Next(c, limit, s) <= limit
  {
    if s.outcome == Overload {
      DecreaseStrictlyLowers(limit, c.decreaseFactor);
    }
  }

  /** The unit tests: 10 at factor 0.5 halves to 5 on overload; 4 with three in flight
      at a threshold of 0.5 grows to 5; 4 with one in flight stays 4. */
  lemma UnitTestScenarios()
    ensures Next(DefaultConfig().(decreaseFactor := 0.5), 10, Sample(0, 1, Overload)) == 5
    ensures Next(DefaultConfig().(decreaseFactor := 0.5, minUtilisationThreshold := 0.5), 4, Sample(0, 3, Success)) == 5
    ensures Next(DefaultConfig().(decreaseFactor := 0.5, minUtilisationThreshold := 0.5), 4, Sample(0, 1, Success)) == 4
  {
    assert (10 as real * 0.5).Floor == 5;
  }

  /** A limit pinned at a maximum of 20 drops to 18 on one overload at the default factor. */
  lemma ClampedMaxThenOverload()
    ensures Next(DefaultConfig().(maxLimit := 20), 20, Sample(0, 20, Success)) == 20
    ensures Next(DefaultConfig().(maxLimit := 20), 20, Sample(0, 20, Overload)) == 18
  {
    assert (20 as real * 0.9).Floor == 18;
  }

  /** An AIMD limit: its configuration and the current limit (an atomic in the source). */
  class Aimd {
    var config: Config
    var limit: nat

    ghost predicate Valid()
      reads this
    {
      // no builder changes the minimum, so it stays the default of 1
      ValidConfig(config) && config.minLimit == DEFAULT_MIN_LIMIT && limit > 0
    }

    constructor NewWithInitialLimit(initialLimit: nat)
      requires initialLimit > 0
      ensures Valid()
      ensures config == DefaultConfig() && limit == initialLimit
    {
      config := DefaultConfig();
      limit := initialLimit;
    }

    method DecreaseFactor(factor: real)
      requires Valid() && 0.5 <= factor < 1.0
      modifies this`config
      ensures Valid() && config == old(config).(decreaseFactor := factor)
    {
      config := config.(decreaseFactor := factor);
    }

    method IncreaseBy(increase: nat)
      requires Valid() && increase > 0
      modifies this`config
      ensures Valid() && config == old(config).(increaseBy := increase)
    {
      config := config.(increaseBy := increase);
    }

    /** Only `max > 0` is checked; the minimum is always the default of 1, so the
        bounds cannot cross. */
    method WithMaxLimit(max: nat)
      requires Valid() && max > 0
      modifies this`config
      ensures Valid() && config == old(config).(maxLimit := max)
    {
      config := config.(maxLimit := max);
    }

    method WithMinUtilisationThreshold(minUtil: real)
      requires Valid() && 0.0 < minUtil < 1.0
      modifies this`config
      ensures Valid() && config == old(config).(minUtilisationThreshold := minUtil)
    {
      config := config.(minUtilisationThreshold := minUtil);
    }

    function Limit(): nat
      reads this
    {
      limit
    }

    /** Applies one sample and returns the limit now stored. */
    method Update(s: Sample) returns (r: nat)
      requires Valid()
      modifies this`limit
      ensures Valid()
      ensures limit == Next(config, old(limit), s) && r == limit
    {
      limit := Next(config, limit, s);
      r := limit;
    }
  }
}
