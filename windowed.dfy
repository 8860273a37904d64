/** A limit algorithm fed with aggregated samples: samples are collected over a window,
    and the inner algorithm sees one aggregate per window. A window closes once it holds
    enough samples and has lasted long enough; the next window lasts as long as the
    aggregate latency, kept within configured bounds. */
module Windowed {
  import opened Base
  import Limits
  import Aggregation
  import Vegas

  const DEFAULT_MIN_WINDOW: nat := 1 * NANOS_PER_MICRO
  const DEFAULT_MAX_WINDOW: nat := 1 * NANOS_PER_SEC
  const DEFAULT_MIN_SAMPLES: nat := 10

  /** The aggregator a window uses. */
  datatype Sampler =
    | AverageSampler(average: Aggregation.Average)
    | PercentileSampler(percentile: Aggregation.Percentile)

  ghost function SamplerRepr(sm: Sampler): set<object> {
    match sm
    case AverageSampler(a) => {a}
    case PercentileSampler(p) => {p}
  }

  ghost predicate SamplerValid(sm: Sampler)
    reads SamplerRepr(sm)
  {
    match sm
    case AverageSampler(a) => a.Valid()
    case PercentileSampler(p) => p.Valid()
  }

  /** The samples in the current window. */
  ghost function History(sm: Sampler): seq<Sample>
    reads SamplerRepr(sm)
  {
    match sm
    case AverageSampler(a) => a.history
    case PercentileSampler(p) => p.history
  }

  /** Which aggregate a sampler computes, as a value. */
  datatype Kind = AverageKind | PercentileKind(p: real)

  predicate ValidKind(k: Kind) {
    k.PercentileKind? ==> 0.0 < k.p < 1.0
  }

  ghost function KindOf(sm: Sampler): Kind {
    match sm
    case AverageSampler(_) => AverageKind
    case PercentileSampler(p) => PercentileKind(p.percentile)
  }

  /** What an aggregator of kind `k` reports for the samples `h`. */
  function Aggregate(k: Kind, h: seq<Sample>): Sample
    requires |h| > 0 && ValidKind(k)
  {
    match k
    case AverageKind => Aggregation.AverageAggregate(h)
    case PercentileKind(p) => Aggregation.PercentileAggregate(h, p)
  }

  function SampleSize(sm: Sampler): (r: nat)
    reads SamplerRepr(sm)
    ensures SamplerValid(sm) ==> r == |History(sm)|
  {
    match sm
    case AverageSampler(a) => a.SampleSize()
    case PercentileSampler(p) => p.SampleSize()
  }

  method SamplerSample(sm: Sampler, s: Sample) returns (r: Sample)
    requires SamplerValid(sm)
    modifies SamplerRepr(sm)
    ensures SamplerValid(sm) && ValidKind(KindOf(sm)) && History(sm) == old(History(sm)) + [s]
    ensures r == Aggregate(KindOf(sm), History(sm))
  {
    match sm
    case AverageSampler(a) =>
      r := a.Sample(s);
    case PercentileSampler(p) =>
      r := p.Sample(s);
  }

  method SamplerReset(sm: Sampler)
    requires SamplerValid(sm)
    modifies SamplerRepr(sm)
    ensures SamplerValid(sm) && History(sm) == []
  {
    match sm
    case AverageSampler(a) =>
      a.Reset();
    case PercentileSampler(p) =>
      p.Reset();
  }

  /** Whether the window closes once it holds `count` samples after `elapsed` time. */
  predicate Closes(count: nat, minSamples: nat, elapsed: nat, duration: nat) {
    count >= minSamples && elapsed >= duration
  }

  /** The length of the next window: the aggregate latency clamped into the bounds. */
  function NextDuration(latency: nat, minWindow: nat, maxWindow: nat): (r: nat)
    requires minWindow <= maxWindow
    ensures minWindow <= r <= maxWindow
    ensures minWindow <= latency <= maxWindow ==> r == latency
  {
    Clamp(latency, minWindow, maxWindow)
  }

  /** The settings of a windowed limit. */
  datatype Config = Config(minWindow: nat, maxWindow: nat, minSamples: nat, minLatency: nat)

  /** The samples of the open window, when it opened, how long it lasts, and the inner
      algorithm's state. */
  datatype WindowState = WindowState(history: seq<Sample>, start: nat, duration: nat, inner: Limits.Snapshot)

  /** Whether a sample taken at `now` closes the window. */
  predicate ClosesWith(c: Config, w: WindowState, now: nat) {
    Closes(|w.history| + 1, c.minSamples, SaturatingSub(now, w.start), w.duration)
  }

  /** The clamp of the next window length refuses crossed bounds: the one case where
      an update panics. */
  predicate CanStep(c: Config, w: WindowState, s: Sample, now: nat) {
    s.latency >= c.minLatency && ClosesWith(c, w, now) ==> c.minWindow <= c.maxWindow
  }

  /** `Windowed::update` at time `now`, on values. */
  function WindowStep(c: Config, k: Kind, w: WindowState, s: Sample, now: nat): (r: WindowState)
    requires ValidKind(k) && Limits.ValidSnapshot(w.inner) && CanStep(c, w, s, now)
    ensures Limits.ValidSnapshot(r.inner)
  {
    if s.latency < c.minLatency then w
    else
      var h := w.history + [s];
      var agg := Aggregate(k, h);
      if ClosesWith(c, w, now) then
        WindowState([], now, NextDuration(agg.latency, c.minWindow, c.maxWindow), Limits.Step(w.inner, agg))
      else
        w.(history := h)
  }

  /** A sample below the minimum latency is dropped without a trace. */
  lemma FastSampleIgnored(c: Config, k: Kind, w: WindowState, s: Sample, now: nat)
    requires ValidKind(k) && Limits.ValidSnapshot(w.inner) && s.latency < c.minLatency
    ensures WindowStep(c, k, w, s, now) == w
  {
  }

  /** While the window stays open the inner algorithm is left alone and the sample is
      kept; when it closes the inner algorithm takes exactly one update, with the
      aggregate of every sample of the window including this one, and a new window
      opens at `now`, empty, with a length within the bounds. */
  lemma {:induction false} WindowRule(c: Config, k: Kind, w: WindowState, s: Sample, now: nat)
    requires ValidKind(k) && Limits.ValidSnapshot(w.inner) && CanStep(c, w, s, now)
    requires s.latency >= c.minLatency
    ensures var r := WindowStep(c, k, w, s, now);
            !ClosesWith(c, w, now) ==>
              r.inner == w.inner && r.history == w.history + [s] && r.start == w.start && r.duration == w.duration
    ensures var r := WindowStep(c, k, w, s, now);
            ClosesWith(c, w, now) ==>
              r.history == [] && r.start == now && c.minWindow <= r.duration <= c.maxWindow
              && r.inner == Limits.Step(w.inner, Aggregate(k, w.history + [s]))
  {
  }

  /** The state after a sample that closes the window. */
  lemma StepCloses(c: Config, k: Kind, w: WindowState, s: Sample, now: nat, agg: Sample)
    requires ValidKind(k) && Limits.ValidSnapshot(w.inner) && CanStep(c, w, s, now)
    requires s.latency >= c.minLatency && ClosesWith(c, w, now) && agg == Aggregate(k, w.history + [s])
    ensures c.minWindow <= c.maxWindow
    ensures WindowStep(c, k, w, s, now)
            == WindowState([], now, NextDuration(agg.latency, c.minWindow, c.maxWindow), Limits.Step(w.inner, agg))
  {
  }

  /** The state after a sample that leaves the window open. */
  lemma StepStaysOpen(c: Config, k: Kind, w: WindowState, s: Sample, now: nat)
    requires ValidKind(k) && Limits.ValidSnapshot(w.inner) && CanStep(c, w, s, now)
    requires s.latency >= c.minLatency && !ClosesWith(c, w, now)
    ensures WindowStep(c, k, w, s, now) == w.(history := w.history + [s])
  {
  }

  /** A window never closes with fewer than `min_samples` samples in it. */
  lemma {:induction false} ClosedWindowsAreFull(c: Config, k: Kind, w: WindowState, s: Sample, now: nat)
    requires ValidKind(k) && Limits.ValidSnapshot(w.inner) && CanStep(c, w, s, now)
    requires WindowStep(c, k, w, s, now).inner != w.inner
    ensures s.latency >= c.minLatency && |w.history| + 1 >= c.minSamples
    ensures SaturatingSub(now, w.start) >= w.duration
  {
  }

  /** The unit test: Vegas from a limit of 10 behind an average over windows of two
      samples with both window bounds at zero, the first window lasting the default
      1 µs. Two 10 ms successes close the first window, which moves the base latency
      but leaves the limit at 10; two 100 ms overloads close the second, which lowers
      the limit. The samples arrive 1 µs apart. */
  lemma {:induction false} WindowedVegasScenario(log10: nat -> real)
    ensures var c := Config(0, 0, 2, MIN_SAMPLE_LATENCY);
            var fast := Sample(10 * NANOS_PER_MILLI, 1, Success);
            var slow := Sample(100 * NANOS_PER_MILLI, 1, Overload);
            var w0 := WindowState([], 0, DEFAULT_MIN_WINDOW,
                                  Limits.VegasSnapshot(Vegas.DefaultConfig(log10), Vegas.Initial(10)));
            var w1 := WindowStep(c, AverageKind, w0, fast, 1 * NANOS_PER_MICRO);
            var w2 := WindowStep(c, AverageKind, w1, fast, 2 * NANOS_PER_MICRO);
            var w3 := WindowStep(c, AverageKind, w2, slow, 3 * NANOS_PER_MICRO);
            var w4 := WindowStep(c, AverageKind, w3, slow, 4 * NANOS_PER_MICRO);
            w1.history == [fast] && w1.inner == w0.inner
            && w2.history == [] && w2.start == 2 * NANOS_PER_MICRO && w2.duration == 0
            && w2.inner != w0.inner && Limits.LimitOf(w2.inner) == 10
            && w3.history == [slow] && w3.inner == w2.inner
            && w4.history == [] && Limits.LimitOf(w4.inner) < 10
  {
    var c := Config(0, 0, 2, MIN_SAMPLE_LATENCY);
    var fast := Sample(10 * NANOS_PER_MILLI, 1, Success);
    var slow := Sample(100 * NANOS_PER_MILLI, 1, Overload);
    var vc := Vegas.DefaultConfig(log10);
    var w0 := WindowState([], 0, DEFAULT_MIN_WINDOW, Limits.VegasSnapshot(vc, Vegas.Initial(10)));
    StepStaysOpen(c, AverageKind, w0, fast, 1 * NANOS_PER_MICRO);
    var w1 := WindowStep(c, AverageKind, w0, fast, 1 * NANOS_PER_MICRO);
    assert w1 == w0.(history := [fast]);
    TwoEqualSamples(fast);
    assert w1.history + [fast] == [fast, fast];
    StepCloses(c, AverageKind, w1, fast, 2 * NANOS_PER_MICRO, fast);
    var w2 := WindowStep(c, AverageKind, w1, fast, 2 * NANOS_PER_MICRO);
    var st1 := Vegas.Next(vc, Vegas.Initial(10), fast);
    assert w2.inner == Limits.VegasSnapshot(vc, st1);
    assert st1.baseLatency == 10 * NANOS_PER_MILLI;
    assert Vegas.EstimatedQueue(1, 10 * NANOS_PER_MILLI, 10 * NANOS_PER_MILLI) == 0.0;
    Vegas.DefaultBandsOrdered(log10, 10);
    Vegas.SteadyRule(vc, 10, 0.0, 1 as real / 10 as real);
    assert st1.limit == 10;
    StepStaysOpen(c, AverageKind, w2, slow, 3 * NANOS_PER_MICRO);
    var w3 := WindowStep(c, AverageKind, w2, slow, 3 * NANOS_PER_MICRO);
    assert w3 == w2.(history := [slow]);
    TwoEqualSamples(slow);
    assert w3.history + [slow] == [slow, slow];
    StepCloses(c, AverageKind, w3, slow, 4 * NANOS_PER_MICRO, slow);
    Vegas.OverloadRule(vc, 10, Vegas.EstimatedQueue(1, 100 * NANOS_PER_MILLI, st1.baseLatency), 1 as real / 10 as real);
  }

  /** Averaging a sample with itself gives it back. */
  lemma TwoEqualSamples(s: Sample)
    ensures Aggregation.AverageAggregate([s, s]) == s
  {
    var h := [s, s];
    assert h[..1] == [s] && [s][..0] == [];
    assert Aggregation.TotalLatency([s]) == s.latency;
    assert Aggregation.TotalLatency(h) == Aggregation.TotalLatency([s]) + s.latency == 2 * s.latency;
    assert Aggregation.MaxInFlight(h) == s.inFlight;
    assert Aggregation.CombinedOutcome(h) == s.outcome;
  }

  class Windowed {
    var minWindow: nat
    var maxWindow: nat
    var minSamples: nat
    const minLatency: nat
    const inner: Limits.Algorithm
    const sampler: Sampler
    /** When the current window opened, and how long it lasts. */
    var start: nat
    var duration: nat

    function Settings(): Config
      reads this
    {
      Config(minWindow, maxWindow, minSamples, minLatency)
    }

    ghost function Current(): WindowState
      reads this, Limits.Repr(inner), SamplerRepr(sampler)
    {
      WindowState(History(sampler), start, duration, Limits.Snap(inner))
    }

    ghost predicate Valid()
      reads this, Limits.Repr(inner), SamplerRepr(sampler)
    {
      Limits.Valid(inner) && Limits.ValidSnapshot(Limits.Snap(inner))
      && SamplerValid(sampler) && ValidKind(KindOf(sampler))
      && minSamples > 0 && Limits.Repr(inner) !! SamplerRepr(sampler)
      && this !in Limits.Repr(inner) && this !in SamplerRepr(sampler)
    }

    /** `Windowed::new` at time `now`: windows of 1 µs to 1 s, ten samples each. */
    constructor New(inner: Limits.Algorithm, sampler: Sampler, now: nat)
      requires Limits.Valid(inner) && SamplerValid(sampler) && ValidKind(KindOf(sampler))
      requires Limits.Repr(inner) !! SamplerRepr(sampler)
      ensures Valid() && this.inner == inner && this.sampler == sampler
      ensures Settings() == Config(DEFAULT_MIN_WINDOW, DEFAULT_MAX_WINDOW, DEFAULT_MIN_SAMPLES, MIN_SAMPLE_LATENCY)
      ensures start == now && duration == DEFAULT_MIN_WINDOW
    {
      minWindow := DEFAULT_MIN_WINDOW;
      maxWindow := DEFAULT_MAX_WINDOW;
      minSamples := DEFAULT_MIN_SAMPLES;
      minLatency := MIN_SAMPLE_LATENCY;
      this.inner := inner;
      this.sampler := sampler;
      start := now;
      duration := DEFAULT_MIN_WINDOW;
      Limits.ValidSnap(inner);
    }

    method WithMinSamples(samples: nat)
      requires Valid() && samples > 0
      modifies this`minSamples
      ensures Valid() && Settings() == old(Settings()).(minSamples := samples)
    {
      minSamples := samples;
    }

    /** Either bound may be set freely; the two are not checked against each other. */
    method WithMinWindow(min: nat)
      requires Valid()
      modifies this`minWindow
      ensures Valid() && Settings() == old(Settings()).(minWindow := min)
    {
      minWindow := min;
    }

    method WithMaxWindow(max: nat)
      requires Valid()
      modifies this`maxWindow
      ensures Valid() && Settings() == old(Settings()).(maxWindow := max)
    {
      maxWindow := max;
    }

    /** The windowed limit is the inner algorithm's. */
    function Limit(): (r: nat)
      reads this, Limits.Repr(inner)
      ensures r == Limits.LimitOf(Limits.Snap(inner))
    {
      Limits.Limit(inner)
    }

    /** Feeds a sample to the aggregator; only the window's samples change. */
    method Record(s: Sample) returns (agg: Sample)
      requires Valid()
      modifies SamplerRepr(sampler)
      ensures Valid() && Current() == old(Current()).(history := old(Current().history) + [s])
      ensures agg == Aggregate(KindOf(sampler), Current().history)
    {
      ghost var sn := Limits.Snap(inner);
      agg := SamplerSample(sampler, s);
      assert Limits.Snap(inner) == sn && Limits.Valid(inner);
      assert Limits.ValidSnapshot(Limits.Snap(inner));
      assert SamplerValid(sampler) && ValidKind(KindOf(sampler));
      assert Valid();
    }

    /** Closes the window: empties the aggregator, opens the next window at `now` and
        hands the aggregate to the inner algorithm. */
    method Close(agg: Sample, now: nat) returns (r: nat)
      requires Valid() && minWindow <= maxWindow
      modifies this`start, this`duration, Limits.Repr(inner), SamplerRepr(sampler)
      ensures Valid()
      ensures Current() == WindowState([], now, NextDuration(agg.latency, minWindow, maxWindow),
                                       Limits.Step(old(Current()).inner, agg))
      ensures r == Limits.LimitOf(Current().inner)
    {
      SamplerReset(sampler);
      start := now;
      duration := NextDuration(agg.latency, minWindow, maxWindow);
      r := Limits.Update(inner, agg);
    }

    /** `Windowed::update` at time `now`. */
    method Update(s: Sample, now: nat) returns (r: nat)
      requires Valid() && CanStep(Settings(), Current(), s, now)
      modifies this`start, this`duration, Limits.Repr(inner), SamplerRepr(sampler)
      ensures Valid()
      ensures Current() == WindowStep(Settings(), KindOf(sampler), old(Current()), s, now)
      ensures r == Limits.LimitOf(Current().inner)
    {
      ghost var w := Current();
      ghost var c := Settings();
      ghost var k := KindOf(sampler);
      if s.latency < minLatency {
        assert WindowStep(c, k, w, s, now) == w;
        return Limits.Limit(inner);
      }
      var closes := SampleSize(sampler) + 1 >= minSamples && SaturatingSub(now, start) >= duration;
      assert closes == ClosesWith(c, w, now);
      ghost var agg0 := Aggregate(k, w.history + [s]);
      if closes {
        StepCloses(c, k, w, s, now, agg0);
      } else {
        StepStaysOpen(c, k, w, s, now);
      }
      var agg := Record(s);
      assert agg == agg0;
      if closes {
        r := Close(agg, now);
      } else {
        r := Limits.Limit(inner);
      }
    }
  }
}
