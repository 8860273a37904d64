# squeeze, modelled in Dafny

`squeeze` is a dynamic concurrency limiter. A limiter hands out tokens, one per job in
flight, up to a limit. When a job finishes, its latency, the number of jobs in flight
and whether it saw an overload go back to a *limit algorithm* as a `Sample`. The
algorithm then moves the limit.

This project models the sequential decision logic of that crate:

- **Limit algorithms.**
  - `Aimd` (`aimd.dfy`): additive increase, multiplicative decrease.
  - `Vegas` (`vegas.dfy`): a base latency and an estimated queue with `alpha`/`beta` bands.
  - `Gradient` (`gradient.dfy`): a smoothed long-window latency and a gradient clamped to [0.5, 1].
  - `Fixed` (`fixed.dfy`).
  - `Windowed` (`windowed.dfy`): feeds samples into an aggregator and calls an inner
    algorithm when a window closes.
  - `limits.dfy` gathers the four plain algorithms behind one `Update`.
- **Aggregators and moving averages.**
  - The `Average` and `Percentile` aggregators (`aggregation.dfy`).
  - The `ExpSmoothed` and `Simple` moving averages (`moving_avg.dfy`).
- **Partition scheduling** (`partitioning.dfy`): weight normalisation, fractional
  partition limits, spare capacity with a 10 % buffer, the admission rule and the FIFO
  queue of waiters.
- **Token accounting** (`token.dfy`): the shared in-flight counter and the per-partition
  counters.
- **The mean of durations** (`iter_ext.dfy`) used by the test suite.

Shared definitions live in `base.dfy`.

The model follows one common shape. Each stateful object is a class whose fields the
source updates. Each update method `ensures` that its new state equals a pure step
function applied to the old state. The lemmas beside each step function state what the
source promises about it: bounds, branch rules, invariants, round trips and the unit
tests' scenarios.

Modelling conventions:

- Durations are natural numbers of nanoseconds.
- `f64` values are exact reals. `floor`, `ceil` and `as usize` are `FloorNat` and `CeilNat`.
- Wall-clock time (`Instant::now`, `elapsed`) is a `now` parameter.
- A semaphore permit that may or may not be available is a `permit: bool` parameter.
- The limiter's current total limit is a `totalLimit` parameter.
- Whether a timed-out waiter is still listening is a `receiverAlive` parameter.
- `log10` is an abstract `nat -> real` parameter of `Vegas`.
- Panics in code as written are `Option.None` in the members that model the code as written.

## Model

| member | source | states |
|---|---|---|
| Base.OverloadedOr | src/aggregation.rs:40 | The combined outcome is Overload exactly when either argument is Overload; the tests at src/aggregation.rs:124-153 pin this down. |
| Base.Clamp | src/limits/aimd.rs:99 | `clamp(lo, hi)` lies in [lo, hi], is the identity inside it, and gives the nearer bound outside. |
| Base.SaturatingSub | src/limiter/partitioning.rs:146 | `saturating_sub` is zero exactly when a <= b, and otherwise adds back to a. |
| Base.FloorNat | src/limits/aimd.rs:125 | `floor() as usize` of a non-negative real is the whole number r with r <= x < r + 1. |
| Base.CeilNat | src/limiter/partitioning.rs:208 | `ceil()` of a non-negative real is the whole number r with x <= r < x + 1. |
| Aimd.DefaultConfig | src/limits/aimd.rs:35-47 | The default settings (limits 1 and 1000, factor 0.9, increase 1, threshold 0.8) meet every builder assertion. |
| Aimd.MultiplicativeDecrease | src/limits/aimd.rs:120-126 | The result is floor(limit × factor). |
| Aimd.DecreaseStrictlyLowers | src/limits/aimd.rs:120-126 | Because it floors, a factor below 1 strictly lowers every limit >= 1 (2 × 0.9 gives 1). |
| Aimd.DecreaseAtLeastHalf | src/limits/aimd.rs:50 | With a factor >= 0.5, which the builder enforces, a decrease never goes below floor(limit / 2). |
| Aimd.Next | src/limits/aimd.rs:89-117 | One update keeps the limit positive. |
| Aimd.OverloadDecreases | src/limits/aimd.rs:106-113 | On Overload the limit becomes clamp(floor(limit × factor), min, max), which is below the old limit whenever that was above min. |
| Aimd.SuccessRule | src/limits/aimd.rs:92-104 | On Success with utilisation above the threshold, the limit becomes clamp(limit + increase_by); otherwise it is returned unchanged and is not re-clamped. |
| Aimd.NextKeepsBounds | src/limits/aimd.rs:97-116 | A limit that starts in [min, max] stays there. |
| Aimd.NextDirection | src/limits/aimd.rs:89-117 | Within the bounds, Success never lowers the limit and Overload never raises it. |
| Aimd.UnitTestScenarios | src/limits/aimd.rs:139-184 | The three unit tests' outcomes: 10 with factor 0.5 and Overload gives 5; 4 with 3 in flight gives 5; 4 with 1 in flight stays 4. |
| Aimd.ClampedMaxThenOverload | src/limits/aimd.rs:97-113 | At the maximum, Success stays there and Overload steps down by the factor: 20 gives 18. |
| Aimd.Aimd.NewWithInitialLimit | src/limits/aimd.rs:35-47 | `new_with_initial_limit` demands a positive limit and sets the default configuration. |
| Aimd.Aimd.DecreaseFactor | src/limits/aimd.rs:49-55 | The builder demands a factor in [0.5, 1) and replaces only that setting. |
| Aimd.Aimd.IncreaseBy | src/limits/aimd.rs:57-63 | The builder demands a positive increase and replaces only that setting. |
| Aimd.Aimd.WithMaxLimit | src/limits/aimd.rs:65-71 | The builder demands a positive maximum and replaces only that setting. |
| Aimd.Aimd.WithMinUtilisationThreshold | src/limits/aimd.rs:73-80 | The builder demands a threshold in (0, 1) and replaces only that setting. |
| Aimd.Aimd.Update | src/limits/aimd.rs:89-117 | The stored limit becomes `Next` of the old one, and the stored limit is returned. |
| Vegas.ILog10 | src/limits/vegas.rs:171 | `ilog10(n)` is the r with 10^r <= n < 10^(r+1). |
| Vegas.Increment | src/limits/vegas.rs:171 | The step max(ilog10 limit, 1) lies in [1, limit], so `limit - increment` cannot underflow. |
| Vegas.DefaultBandsOrdered | src/limits/vegas.rs:81-86 | The default bands satisfy 3 <= alpha(l) < beta(l), so the Success bands are disjoint. |
| Vegas.QueueWithinInFlight | src/limits/vegas.rs:163-167 | The estimated queue (in_flight / latency) · (latency − base) lies in [0, in_flight] once base <= latency. |
| Vegas.EstimatedQueue | src/limits/vegas.rs:163-167 | The estimated queue (in_flight / latency) · (latency − base); its bounds are in `QueueWithinInFlight`. |
| Vegas.DefaultAlpha | src/limits/vegas.rs:81-83 | The default alpha band 3 · max(log10 limit, 1); its ordering is in `DefaultBandsOrdered`. |
| Vegas.DefaultBeta | src/limits/vegas.rs:84-86 | The default beta band 6 · max(log10 limit, 1); its ordering is in `DefaultBandsOrdered`. |
| Vegas.DefaultConfig | src/limits/vegas.rs:73-92 | The default bounds [1, 1000] and bands form a consistent configuration. |
| Vegas.Decide | src/limits/vegas.rs:173-191 | The decided limit is always clamped to [min, max]. |
| Vegas.NextLimit | src/limits/vegas.rs:160-192 | The updated limit is always clamped to [min, max]. |
| Vegas.Next | src/limits/vegas.rs:147-199 | A sample below 1 µs changes nothing. The base latency never rises, and becomes min(base, latency). The limit stays in bounds and positive. |
| Vegas.ColdStartTakesFirstSample | src/limits/vegas.rs:88-90 | Starting from `Duration::MAX`, the first valid sample becomes the base latency. |
| Vegas.QueueBoundedAfterUpdate | src/limits/vegas.rs:154-167 | The queue estimated against the updated base lies in [0, in_flight]. |
| Vegas.OverloadRule | src/limits/vegas.rs:173-175 | Overload gives clamp(floor(limit × 0.9)), which is below the limit whenever that is above min. |
| Vegas.HighQueueRule | src/limits/vegas.rs:176-178 | On Success with queue > beta, the limit drops by the increment. |
| Vegas.LowQueueRule | src/limits/vegas.rs:179-185 | On Success with queue <= beta, queue < alpha and utilisation >= 0.8, the limit rises by the increment. |
| Vegas.SteadyRule | src/limits/vegas.rs:186-189 | Every other Success keeps the limit, clamped. |
| Vegas.UtilisationThreshold | src/limits/vegas.rs:169-180 | The utilisation test in_flight / limit >= 0.8 is in_flight >= 0.8 × limit. |
| Vegas.SteadyLatencyRaisesLimit | src/limits/vegas.rs:248-265 | Steady 25 ms at high concurrency raises the limit from 10 to 11. |
| Vegas.TenfoldLatencyLowersLimit | src/limits/vegas.rs:267-283 | Ten times the base latency lowers the limit. |
| Vegas.Vegas.NewWithInitialLimit | src/limits/vegas.rs:73-92 | The constructor demands a positive limit, sets the defaults and a base latency of `Duration::MAX`. |
| Vegas.Vegas.WithMaxLimit | src/limits/vegas.rs:94-100 | The builder demands a positive maximum and replaces only that setting. |
| Vegas.Vegas.Update | src/limits/vegas.rs:147-199 | The stored limit and base latency become `Next` of the old ones, and the new limit is returned. |
| Gradient.GradientRange | src/limits/gradient.rs:94-106 | The gradient clamp(2 × long / latency, 0.5, 1) lies in [0.5, 1]. It is 1 exactly when the ratio is at least 0.5, and 0.5 once the ratio is at most 0.25. |
| Gradient.LimitStep | src/limits/gradient.rs:106-125 | The new real-valued limit is clamped to [min, max]. |
| Gradient.NoIncreaseCutsAtMostATenth | src/limits/gradient.rs:121-123 | With no increase, `0.8·old + 0.2·old·gradient` lies in [0.9·old, old]. |
| Gradient.RiseNeedsIncrease | src/limits/gradient.rs:108-123 | The smoothed limit rises only if utilisation > 0.8 and gradient > 0.9, the only case with an increase of 4. |
| Gradient.SteadyBusyGrows | src/limits/gradient.rs:108-123 | With gradient 1 and utilisation above 0.8, the limit grows by exactly 0.2 × 4 = 0.8. |
| Gradient.UtilisationCompare | src/limits/gradient.rs:108-112 | The utilisation test in_flight / limit > 0.8 is in_flight > 0.8 × limit. |
| Gradient.Ratio | src/limits/gradient.rs:94 | The ratio long / latency of the long window to the sample's latency. |
| Gradient.GradientOf | src/limits/gradient.rs:106 | The gradient clamp(2 × ratio, 0.5, 1); its range is in `GradientRange`. |
| Gradient.Increase | src/limits/gradient.rs:108-118 | The additive increase, 4 at utilisation above 0.8 and gradient above 0.9 and 0 otherwise; its effect is in `RiseNeedsIncrease` and `SteadyBusyGrows`. |
| Gradient.Smoothed | src/limits/gradient.rs:120-123 | 0.8 · old + 0.2 · (old · gradient + increase); its bounds are in `NoIncreaseCutsAtMostATenth` and `SteadyBusyGrows`. |
| Gradient.Initial | src/limits/gradient.rs:51-66 | The initial state is valid for every configuration. |
| Gradient.NextLong | src/limits/gradient.rs:92-99 | Sampling the long window and then possibly resetting keeps the window's state well formed. |
| Gradient.Next | src/limits/gradient.rs:83-132 | A sample below 1 µs changes nothing. Otherwise the real limit lies in [min, max], and the published limit is its truncation and lies in [min, max]. |
| Gradient.PublishedIsTruncated | src/limits/gradient.rs:127-131 | The published limit is floor of the stored real limit. |
| Gradient.OutcomeIgnored | src/limits/gradient.rs:83-132 | The update does not depend on the sample's outcome. |
| Gradient.LongWindowReset | src/limits/gradient.rs:97-99 | When long / latency > 2, the long-window value drops to 0.95 × long; otherwise the sampled window is kept. The warm-up counters are untouched either way. |
| Gradient.FirstSteadySample | src/limits/gradient.rs:154-167 | From limit 10, a 25 ms sample at 10 in flight gives a real limit of 10.8, published as 10. |
| Gradient.SecondSteadySamplePublishesEleven | src/limits/gradient.rs:154-167 | A second 25 ms sample at 9 in flight raises the real limit from 10.8 to 11.6, so the published limit rises above the initial 10 to 11, as the test expects. |
| Gradient.TenfoldLatencyLowers | src/limits/gradient.rs:169-185 | After warm-up, a latency of ten times the long window strictly lowers a limit above min. |
| Gradient.SharpRiseLowers | src/limits/gradient.rs:106-125 | A ratio of at most 0.3 strictly lowers a limit above min. |
| Gradient.TenfoldLongWindow | src/moving_avg.rs:44 | After warm-up with smoothing <= 0.2, a tenfold sample leaves the long window at most 0.3 × the sample. |
| Gradient.SmoothTowardsTenfold | src/moving_avg.rs:44 | One smoothing step of factor <= 0.2 towards a tenfold sample stays below 0.3 × the sample. |
| Gradient.Gradient.NewWithInitialLimit | src/limits/gradient.rs:51-66 | The constructor demands a positive limit and sets the defaults and a fresh long window of 500 samples. |
| Gradient.Gradient.WithMaxLimit | src/limits/gradient.rs:68-74 | The builder demands a positive maximum and replaces only that setting. |
| Gradient.Gradient.Update | src/limits/gradient.rs:83-132 | The limit, the real limit and the long window become `Next` of the old ones, and the published limit is returned. |
| Fixed.New | src/limits/fixed.rs:10-14 | `new` demands a positive limit and keeps it. |
| Fixed.UpdateIgnoresSamples | src/limits/fixed.rs:19-25 | `update` returns the constructed limit for every sample, the same value `limit()` gives. |
| Limits.Step | src/limits/mod.rs:22-29 | Any algorithm's update keeps its state valid. |
| Limits.StepKeepsPositiveLimit | src/limits/mod.rs:22-29 | Every algorithm's limit is positive before and after an update. |
| Limits.StepKeepsKind | src/limits/mod.rs:22-29 | An update never changes which algorithm is in use. |
| Limits.Update | src/limits/mod.rs:28 | The algorithm's state becomes `Step` of the old one, and the returned value is its new `limit()`. |
| Limits.Limit | src/limits/mod.rs:24-25 | The reported limit is the one held in the algorithm's state. |
| MovingAvg.SmoothingForWindow | src/moving_avg.rs:53-58 | For 0 < k < u16::MAX, α = 2 / (k + 1) satisfies α · (k + 1) = 2 and 0 < α <= 1. |
| MovingAvg.NewExpState | src/moving_avg.rs:28-35 | A new average is well formed. |
| MovingAvg.Scaled | src/moving_avg.rs:44 | `mul_f64` by a factor in [0, 1] never grows a duration. |
| MovingAvg.Smooth | src/moving_avg.rs:44 | One smoothing step lands between the old value and the sample. |
| MovingAvg.ExpSample | src/moving_avg.rs:37-47 | During warm-up, `initial_sum` grows by the sample and the value is `initial_sum / initial_count`. After it, the value moves between the old value and the sample. `initial_count` never exceeds 10. |
| MovingAvg.ExpSampleAll | src/moving_avg.rs:37-47 | Any run of samples keeps the average well formed. |
| MovingAvg.WarmupIsMean | src/moving_avg.rs:26-43 | After up to 10 samples from new, the value is their mean (rounded down) and the count is their number. |
| MovingAvg.ExpSampleAsWritten | src/moving_avg.rs:37-47 | The code as written panics exactly after warm-up with a sample below the current value. |
| MovingAvg.AsWrittenAgreesWhenDefined | src/moving_avg.rs:37-47 | Wherever the code as written does not panic, it agrees with the corrected `ExpSample`. |
| MovingAvg.WarmupThenFasterSamplePanics | src/moving_avg.rs:44 | After ten 25 ms samples, a 10 ms sample panics as written; the corrected step lands between 10 and 25 ms. |
| MovingAvg.ExpSmoothed.NewWithWindowSize | src/moving_avg.rs:28-35 | A new average has the smoothing for window k and no samples. |
| MovingAvg.ExpSmoothed.Sample | src/moving_avg.rs:37-47 | The state becomes `ExpSample` of the old state, and the new value is returned. |
| MovingAvg.ExpSmoothed.Set | src/moving_avg.rs:49-51 | `set` overwrites only the value; the warm-up counters are unchanged. |
| MovingAvg.LastN | src/moving_avg.rs:80-93 | The window is the last min(len, window_size) samples. |
| MovingAvg.LastNSnoc | src/moving_avg.rs:80-93 | A new sample is appended while the window is filling; once the window is full, the oldest sample drops out. |
| MovingAvg.SlidingAverage | src/moving_avg.rs:84-89 | Once the window is full and the sample is at least the value dropped out, the average never decreases. |
| MovingAvg.SumOfFront | src/moving_avg.rs:84-86 | The window's sum is its oldest value plus the sum of the rest, so popping the oldest value takes exactly that value off the sum. |
| MovingAvg.SumOfSnoc | src/moving_avg.rs:92 | Pushing a sample adds it to the window's sum. |
| MovingAvg.FillingStaysBelowMean | src/moving_avg.rs:88-90 | If count · avg is at most the window's sum, then (count + 1) times the new average is at most the sum with the sample added, because the division rounds down. |
| MovingAvg.SlidingStaysBelowMean | src/moving_avg.rs:84-87 | If count · avg is at most the window's sum, then after swapping the oldest value for the sample, count times the new average is at most the new sum. |
| MovingAvg.AtMostQuotient | src/moving_avg.rs:61 | From n · a <= t follows a <= t / n. |
| MovingAvg.Simple.NewWithWindowSize | src/moving_avg.rs:70-78 | The constructor demands a positive window and starts empty. |
| MovingAvg.Simple.Sample | src/moving_avg.rs:80-94 | While filling, push the sample and set avg to (sample + count·avg) / (count + 1). When full, pop the oldest, push the sample and add (sample − prev) / count. The window always holds the last window_size samples, and the invariant len · avg <= sum of the window is kept, so the returned average never exceeds the truncated mean of the window. |
| Aggregation.MaxInFlight | src/aggregation.rs:39 | The in-flight value is at least every sample's, and is one of them (0 when empty). |
| Aggregation.CombinedOutcome | src/aggregation.rs:40 | The outcome is Overload exactly when some sample since the last reset was Overload. |
| Aggregation.CombinedOutcomeSnoc | src/aggregation.rs:40 | Each sample folds its outcome in with `overloaded_or`. |
| Aggregation.MaxInFlightSnoc | src/aggregation.rs:39 | Each sample folds its in-flight value in with `max`. |
| Aggregation.TotalLatencySnoc | src/aggregation.rs:38 | Each sample adds its latency to the sum. |
| Aggregation.AverageWithinRange | src/aggregation.rs:37-47 | The average latency lies within any bounds that hold for every sample. |
| Aggregation.AverageAggregate | src/aggregation.rs:37-47 | The average aggregate's latency times the sample count is at most the total latency; its in-flight value is at least every sample's; it is Overload exactly when some sample was. |
| Aggregation.PercentileRank | src/aggregation.rs:88 | For 0 < p < 1, the rank ceil(len × p) lies in [1, len], so the `expect` never fires. |
| Aggregation.SortSorted | src/aggregation.rs:88-91 | The sort used by the corrected percentile yields a sorted sequence. |
| Aggregation.SortPermutes | src/aggregation.rs:88-91 | The sort is a permutation of its input. |
| Aggregation.SortOfSorted | src/aggregation.rs:88-91 | Sorting sorted latencies changes nothing. |
| Aggregation.PercentileOf | src/aggregation.rs:83-94 | The percentile is one of the observed latencies. |
| Aggregation.PercentileIsOrderStatistic | src/aggregation.rs:88-91 | The percentile is the rank-th smallest latency. |
| Aggregation.AsWrittenAgreesWhenSorted | src/aggregation.rs:88-91 | On latencies that arrived in order, the code as written indexes the same value. |
| Aggregation.UnsortedPercentileDiffers | src/aggregation.rs:88-91 | On 5, 3, 1 ms at p = 0.99, the code as written gives 1 ms where the 99th percentile is 5 ms. |
| Aggregation.PercentileAsWritten | src/aggregation.rs:88-91 | As written, the percentile is the latency at the rank in arrival order, which is still one of the observed latencies. |
| Aggregation.RankOfThree | src/aggregation.rs:88 | Three samples give the ranks 1 at p = 0.01 and 3 at p = 0.99. |
| Aggregation.TestSamplesFacts | src/aggregation.rs:124-153 | The test samples 1, 3, 5 ms sum to 9 ms with at most 5 in flight and an Overload. |
| Aggregation.AverageUnitTest | src/aggregation.rs:124-153 | Averaging 1, 3 and 5 ms gives 3 ms, 5 in flight, Overload. |
| Aggregation.PercentileUnitTests | src/aggregation.rs:185-246 | The test samples give 1 ms at p = 0.01 and 5 ms at p = 0.99. |
| Aggregation.SortAscendingThree | src/aggregation.rs:185-246 | Three latencies in ascending order are already sorted. |
| Aggregation.SortDescendingThree | src/aggregation.rs:88-91 | Three descending latencies are sorted in reverse. |
| Aggregation.SingleSampleIsItself | src/aggregation.rs:156-182 | After a reset, the next result equals the input sample, for both aggregators. |
| Aggregation.Average.Default | src/aggregation.rs:58-67 | A default average has no samples. |
| Aggregation.Average.Sample | src/aggregation.rs:37-47 | The sample joins the history since the last reset. The result is its latency average, maximum in-flight and combined outcome. |
| Aggregation.Average.SampleSize | src/aggregation.rs:49-51 | `sample_size` is the number of samples since the last reset. |
| Aggregation.Average.Reset | src/aggregation.rs:53-55 | `reset` empties the history. |
| Aggregation.Percentile.New | src/aggregation.rs:69-80 | `new` demands 0 < p < 1 and keeps it, with no samples. |
| Aggregation.Percentile.Default | src/aggregation.rs:108-117 | The default percentile is 0.5, with no samples. |
| Aggregation.Percentile.Sample | src/aggregation.rs:83-94 | The latency is pushed. The result is the percentile of the history, its maximum in-flight and combined outcome. |
| Aggregation.PercentileAggregate | src/aggregation.rs:83-94 | The percentile aggregate's latency is one of the history's latencies; its in-flight value is at least every sample's; it is Overload exactly when some sample was. |
| Aggregation.Percentile.SampleSize | src/aggregation.rs:96-98 | `sample_size` is the number of samples since the last reset. |
| Aggregation.Percentile.Reset | src/aggregation.rs:100-105 | `reset` empties the history and keeps the percentile. |
| Windowed.SampleSize | src/limits/windowed.rs:82 | The aggregator's sample count is the number of samples in the open window. |
| Windowed.SamplerSample | src/limits/windowed.rs:80 | Sampling extends the window's history and returns its aggregate. |
| Windowed.SamplerReset | src/limits/windowed.rs:85 | Resetting empties the window's history. |
| Windowed.NextDuration | src/limits/windowed.rs:90 | The next window lasts clamp(aggregate latency, min_window, max_window). |
| Windowed.WindowStep | src/limits/windowed.rs:73-96 | Every step keeps the inner algorithm's state valid. |
| Windowed.FastSampleIgnored | src/limits/windowed.rs:74-76 | A sample below the minimum latency leaves the window and the inner algorithm untouched. |
| Windowed.WindowRule | src/limits/windowed.rs:80-95 | Every other sample joins the window. With enough samples and enough time elapsed, the window closes: history emptied, start = now, duration clamped, inner updated with the aggregate. Otherwise nothing else changes. |
| Windowed.StepCloses | src/limits/windowed.rs:82-92 | The closing step's whole new state. |
| Windowed.StepStaysOpen | src/limits/windowed.rs:80-95 | A step that does not close only appends the sample. |
| Windowed.ClosedWindowsAreFull | src/limits/windowed.rs:82-83 | The inner algorithm moves only after at least min_samples samples and at least the window's duration. |
| Windowed.WindowedVegasScenario | src/limits/windowed.rs:105-138 | Four samples through `WindowStep` with min_samples 2 and min_window = max_window = 0: the first 10 ms sample only joins the window, the second closes it and Vegas stays at 10; the first overloaded 100 ms sample only joins the new window, the second closes it and the limit falls below 10. |
| Windowed.TwoEqualSamples | src/limits/windowed.rs:106-138 | Averaging two equal samples gives that sample. |
| Windowed.Windowed.New | src/limits/windowed.rs:28-44 | The defaults are a window of 1 µs to 1 s, 10 samples and a 1 µs minimum latency, with a first window of 1 µs starting now. |
| Windowed.Windowed.WithMinSamples | src/limits/windowed.rs:46-50 | The builder demands a positive count and replaces only that setting. |
| Windowed.Windowed.WithMinWindow | src/limits/windowed.rs:52-55 | The builder replaces only the minimum window, unchecked. |
| Windowed.Windowed.WithMaxWindow | src/limits/windowed.rs:57-60 | The builder replaces only the maximum window, unchecked. |
| Windowed.Windowed.Record | src/limits/windowed.rs:80 | The sample joins the window, and the aggregate is returned. |
| Windowed.Windowed.Close | src/limits/windowed.rs:85-92 | Closing resets the aggregator, restarts the window now with the clamped duration, and updates the inner algorithm. |
| Windowed.Windowed.Update | src/limits/windowed.rs:73-96 | The window and inner state become `WindowStep` of the old ones, and the inner limit is returned. |
| Windowed.Windowed.Limit | src/limits/windowed.rs:69-71 | The windowed limit is the inner algorithm's current limit. |
| Tokens.FetchSub | src/limiter/token.rs:94-106 | `fetch_sub(1)` lowers a positive counter by one and wraps zero to usize::MAX. |
| Tokens.Empty | src/limiter/partitioning.rs:70-73 | New counters start at zero, one per partition, and are accounted. |
| Tokens.NewKeepsAccounted | src/limiter/token.rs:39-51 | `Token::new` adds exactly one to the shared counter and keeps the counters accounted. |
| Tokens.NewFromInnerKeepsAccounted | src/limiter/token.rs:53-61 | `new_from_inner` moves no counter and keeps them accounted. |
| Tokens.ForPartitionAccounted | src/limiter/token.rs:63-67 | Charging a token to a partition keeps "counter = live tokens" exactly when the token was not charged before. |
| Tokens.DropKeepsAccounted | src/limiter/token.rs:90-102 | Dropping a partitioned token takes one from its partition and hands its permit on with the shared count unchanged. Dropping any other token takes one from the shared count. |
| Tokens.DropInnerKeepsAccounted | src/limiter/token.rs:104-108 | Dropping a permit takes exactly one from the shared counter. |
| Tokens.NewStep | src/limiter/token.rs:39-51 | `Token::new`: one more in flight and one more live, uncharged token; its invariant is in `NewKeepsAccounted`. |
| Tokens.NewFromInnerStep | src/limiter/token.rs:53-61 | `new_from_inner`: a permit in transit becomes a live, uncharged token; its invariant is in `NewFromInnerKeepsAccounted`. |
| Tokens.ForPartitionStep | src/limiter/token.rs:63-67 | `for_partition`: the partition's counter goes up by one and the token is tagged with it; its invariant is in `ForPartitionAccounted`. |
| Tokens.DropStep | src/limiter/token.rs:90-102 | Dropping a token: a charged one takes one off its partition and hands its permit on, an uncharged one releases its permit; its invariant is in `DropKeepsAccounted`. |
| Tokens.DropInnerStep | src/limiter/token.rs:104-108 | Dropping a permit takes one off the shared counter; its invariant is in `DropInnerKeepsAccounted`. |
| Tokens.Counters.New | src/limiter/partitioning.rs:70-81 | The counters begin empty. |
| Tokens.Counters.NewToken | src/limiter/token.rs:39-51 | The counters follow `NewStep`. |
| Tokens.Counters.NewFromInner | src/limiter/token.rs:53-61 | The counters follow `NewFromInnerStep`. |
| Tokens.Counters.ForPartition | src/limiter/token.rs:63-67 | The counters follow `ForPartitionStep`. |
| Tokens.Counters.Drop | src/limiter/token.rs:90-102 | The counters follow `DropStep`. |
| Tokens.Counters.DropInner | src/limiter/token.rs:104-108 | The counters follow `DropInnerStep`. |
| Partitioning.FractionalLimit | src/limiter/partitioning.rs:204-211 | The partition limit is ceil(total × fraction). It is at most the total, and at least 1 for a positive fraction and total. |
| Partitioning.Buffer | src/limiter/partitioning.rs:142-145 | The buffer ceil(0.1 × limit) is at most the limit, and positive for a positive limit. |
| Partitioning.Spare | src/limiter/partitioning.rs:140-147 | A partition has spare capacity exactly when in_flight + buffer < limit, and then the spare is limit − in_flight − buffer. |
| Partitioning.SpareAsWrittenAgreesWithinLimit | src/limiter/partitioning.rs:146 | While in_flight <= limit, the wrapping subtraction as written gives the same spare. |
| Partitioning.SpareAsWritten | src/limiter/partitioning.rs:140-147 | `spare` with `limit − in_flight` wrapping modulo 2^64; agreement and disagreement are in `SpareAsWrittenAgreesWithinLimit` and `WrappedSpareAdmitsFullPartition`. |
| Partitioning.TotalSpare | src/limiter/partitioning.rs:121-125 | The sum of every partition's spare; when it is zero is in `TotalSpareZero`. |
| Partitioning.TotalSpareAsWritten | src/limiter/partitioning.rs:121-125 | The fold over `SpareAsWritten` whose usize `+` wraps modulo 2^64; the result is below 2^64. |
| Partitioning.AdmitsAsWritten | src/limiter/partitioning.rs:159 | The admission test as written, over the wrapping spares and their wrapping sum. |
| Partitioning.Admits | src/limiter/partitioning.rs:159 | The admission test: in_flight below the partition limit or some spare; its meaning is in `AdmissionRule`. |
| Partitioning.TotalSpareZero | src/limiter/partitioning.rs:121-125 | The scheduler has spare capacity exactly when some partition has. |
| Partitioning.AdmissionRule | src/limiter/partitioning.rs:159 | A partition at or above its limit is admitted exactly when some partition has in_flight + buffer below its limit. |
| Partitioning.WrappedSpareAdmitsFullPartition | src/limiter/partitioning.rs:121-159 | At a total limit of 100 split equally, borrowing reaches in flight 51 and 45, admitted step by step. There partition 0's spare as written wraps to 2^64 − 6, and with 4 permits free the test as written admits partition 0 into partition 1's buffer, which the corrected rule refuses. |
| Partitioning.WrappedTotalRefusesBorrower | src/limiter/partitioning.rs:121-159 | At in flight 51 and 39, reached by borrowing, the spares as written are 2^64 − 6 and 6 and their usize sum wraps to 0. Partition 0 is then refused, though the corrected rule admits it on partition 1's spare of 6. |
| Partitioning.DivideAll | src/limiter/partitioning.rs:67-68 | Every weight is divided by the total. |
| Partitioning.SumDivided | src/limiter/partitioning.rs:63-68 | Dividing every weight by t divides their sum by t. |
| Partitioning.NormalisedAreFractions | src/limiter/partitioning.rs:63-68 | For non-negative weights with a positive total, each partition's fraction is weight / total and lies in [0, 1], positive for a positive weight. |
| Partitioning.OneSignedAreFractions | src/limiter/partitioning.rs:63-68 | For weights all of one sign with a non-zero total, every fraction lies in [0, 1]. |
| Partitioning.NormalisedNegated | src/limiter/partitioning.rs:63-68 | Negating every weight leaves the fractions unchanged. |
| Partitioning.SumNegated | src/limiter/partitioning.rs:63 | The total of the negated weights is the negated total. |
| Partitioning.NegatedRatio | src/limiter/partitioning.rs:68 | (−w) / (−t) = w / t. |
| Partitioning.SumNonNegative | src/limiter/partitioning.rs:63 | Non-negative weights have a non-negative total. |
| Partitioning.WeightAtMostSum | src/limiter/partitioning.rs:63-68 | No non-negative weight exceeds the total. |
| Partitioning.PartOfTotal | src/limiter/partitioning.rs:68 | A part w in [0, t] of a positive total t is a fraction in [0, 1] with fraction · t = w, positive when w is. |
| Partitioning.NormalisedAt | src/limiter/partitioning.rs:63-68 | One non-negative weight's fraction is weight / total, in [0, 1], and positive when the weight is. |
| Partitioning.NormalisedSumToOne | src/limiter/partitioning.rs:63-68 | For any weights with a non-zero total, the fractions sum to 1. |
| Partitioning.TwoTwoFour | src/limiter/partitioning.rs:56-57 | The weights 2, 2 and 4 give 25 %, 25 % and 50 %. |
| Partitioning.TryAcquireRule | src/limiter/partitioning.rs:155-169 | `try_acquire` yields nothing and touches no counter exactly when the partition is not admitted or the limiter has no permit. Otherwise it returns a token charged to the partition, with both counters up by one and still accounted. |
| Partitioning.AcquireRule | src/limiter/partitioning.rs:171-187 | An admitted partition asks the limiter for a permit. Any other joins the back of the waiter queue with no counter moved. |
| Partitioning.TryAcquireStep | src/limiter/partitioning.rs:155-169 | `try_acquire` on the scheduler's state; its rule is in `TryAcquireRule`. |
| Partitioning.AcquireStartStep | src/limiter/partitioning.rs:171-187 | The first half of `acquire_timeout`: take a permit or queue; its rule is in `AcquireRule`. |
| Partitioning.AcquireFinishAsWritten | src/limiter/partitioning.rs:189-193 | As written, the second half of `acquire_timeout` charges the received token to the partition whatever it carries; the double charge is in `WaiterTraceServes`. |
| Partitioning.AcquireFinishStep | src/limiter/partitioning.rs:189-193 | The corrected second half charges only an uncharged token; it keeps the counters right (`AcquireFinishKeepsAccounted`). |
| Partitioning.AcquireFinishKeepsAccounted | src/limiter/partitioning.rs:190-193 | Charging the received token only when it is not yet charged keeps the counters accounted. |
| Partitioning.ReuseRule | src/limiter/partitioning.rs:97-118 | A handed-on permit goes to the oldest waiter, charged to its partition, with the shared count unchanged. With no waiter the permit is released. The counters stay accounted. |
| Partitioning.ReuseStep | src/limiter/partitioning.rs:97-114 | `reuse_permit` with the receiver's liveness as a parameter; its rule is in `ReuseRule`. |
| Partitioning.WholeLimitOfOne | src/limiter/partitioning.rs:155-169 | With one partition and a total limit of 1, a partition is admitted exactly when nothing is in flight. |
| Partitioning.WaiterTraceQueues | src/limiter/partitioning.rs:171-187 | With a limit of 1, a second acquire queues behind the first token, whose drop hands its permit on. |
| Partitioning.WaiterTraceServes | src/limiter/partitioning.rs:97-114 | `reuse_permit` charges the waiter's token once. Charging it again as written counts it twice; the corrected step keeps the count at one. |
| Partitioning.WaiterTraceEnds | src/limiter/partitioning.rs:190-193 | If the waiter were served, dropping the double-counted token would leave the partition a phantom count of 1 that refuses every later caller. The corrected trace returns to empty counters. As written this stays latent: see `WaiterTraceTimesOut`. |
| Partitioning.ReuseAsWritten | src/limiter/partitioning.rs:97-114 | Because the queued caller holds the waiters' write guard across `rx.await` (src/limiter/partitioning.rs:180-185), `reuse_permit` pops a waiter only after its timeout: no token is delivered, and the front waiter is removed. |
| Partitioning.HeldGuardNeverServes | src/limiter/partitioning.rs:180-185 | As written no queued caller is ever served. With the guard released after the push, the oldest waiter gets a token charged to its partition. |
| Partitioning.WaiterTraceTimesOut | src/limiter/partitioning.rs:97-114 | As written, the waiter trace ends with the timed-out waiter's permit charged, dropped, handed on and released: the counters return to zero. |
| Partitioning.Scheduler.New | src/limiter/partitioning.rs:76-81 | The scheduler starts with no waiters and empty counters. |
| Partitioning.Scheduler.TryAcquire | src/limiter/partitioning.rs:155-169 | The scheduler follows `TryAcquireStep`. |
| Partitioning.Scheduler.AcquireStart | src/limiter/partitioning.rs:171-187 | The scheduler follows `AcquireStartStep`. |
| Partitioning.Scheduler.AcquireFinish | src/limiter/partitioning.rs:189-196 | The scheduler follows `AcquireFinishStep`, and the token handed out is charged to a partition. |
| Partitioning.Scheduler.ReusePermit | src/limiter/partitioning.rs:97-118 | The scheduler follows `ReuseStep`. |
| Partitioning.Scheduler.Spare | src/limiter/partitioning.rs:121-125 | The scheduler's spare is `TotalSpare` of its fractions and partition counters. |
| Partitioning.NormaliseWeights | src/limiter/partitioning.rs:60-74 | For any non-empty weights with a non-zero total, the loop yields weight / total for every weight. |
| Partitioning.CreateStaticPartitions | src/limiter/partitioning.rs:60-93 | One handle per weight, at index = position, all sharing one fresh scheduler. The scheduler has the normalised fractions, zero counters and no waiters. |
| IterExt.Mean | tests/iter_ext.rs:23-41 | The loop computes `MeanOf`: zero for no items, the sum divided by the count taken modulo 2^32 otherwise, and a panic when that count wraps to zero. |
| IterExt.MeanOf | tests/iter_ext.rs:23-41 | `mean` fails exactly when there are items and their count is a multiple of 2^32, and gives zero for no items. |
| IterExt.MeanWithinBounds | tests/iter_ext.rs:28-38 | With fewer than 2^32 items, the mean lies between any lower and upper bound of the items. |
| IterExt.WrappedCountYieldsSum | tests/iter_ext.rs:37 | With 2^32 + 1 items, `count as u32` wraps to 1 and the "mean" is the sum. |
| IterExt.MeanOfThree | tests/iter_ext.rs:23-41 | 10, 20 and 40 ms have the mean 23.333333 ms, truncated to the nanosecond. |

## Left out

- Async and synchronisation machinery is not modelled: tokio mutexes and `RwLock`s, `oneshot` channels, `tokio::spawn`, `timeout` and atomic memory orderings. Each operation is one sequential step. In `acquire_timeout`, the waiter list's write guard is held while `rx.await` runs (src/limiter/partitioning.rs:180-185). Its only effect, that every queued caller times out before `reuse_permit` can pop it, is modelled by `ReuseAsWritten`; the scheduler's steps otherwise take the guard as released once the waiter is pushed.
- IEEE-754 arithmetic is not modelled. Rounding, NaN, infinities and the precision of `as_secs_f64`, `mul_f64`, `div_f64` and `log10` become exact reals. `mul_f64`/`div_f64` results are truncated to the nanosecond.
- Vegas' `log10` is a parameter. Only its use, `max(log10 l, 1)`, is modelled in the bands.
- `Duration` addition overflow, `fetch_add` overflow of the counters, and the usize additions `limit + self.increase_by` (src/limits/aimd.rs:98, in `Aimd.Next`) and `limit + increment` (src/limits/vegas.rs:185, in `Vegas.Decide`) are not modelled. The last two overflow only when max_limit is near usize::MAX. `fetch_sub` below zero wraps, as usize does.
- `src/limiter/mod.rs`, `DefaultLimiter`, `src/limiter.rs` and `rejection_delay.rs` are not part of this model. The limiter's permit is the `permit` parameter, and its current limit is `totalLimit`. `Outcome` and `overloaded_or` are defined there, and their behaviour is taken from the tests at src/aggregation.rs:124-153.
- The older `src/limit/*.rs` and `src/partitioning.rs` are not part of this model, being outside the crate's module tree.
- `Debug` impls and `Token`'s latency fields are not modelled.
- `src/limits/windowed.rs` names `crate::aggregators::Sampler` and `samples()`, which the crate does not define. The window is modelled over the `Average` and `Percentile` aggregators of src/aggregation.rs, with `sample_size` as the count. The inner algorithm is one of the four plain algorithms, not another `Windowed`.
- Windowed.Windowed.Update: requires `CanStep`, i.e. min_window <= max_window whenever the window closes, because `Duration::clamp` panics otherwise and the builders do not check it.
- MovingAvg.Simple.Sample: requires a sample at least the value it pushes out of a full window, because the `Duration` subtraction at src/moving_avg.rs:86 panics otherwise.
- Aggregation.PercentileOf: the `Percentile` aggregator uses the corrected, sorted percentile (see Findings); insertion order is kept only in `PercentileAsWritten`.
- MovingAvg.ExpSmoothed.Sample: uses the corrected smoothing, which lets the average move down; the panic at src/moving_avg.rs:44 is kept only in `ExpSampleAsWritten`.
- Partitioning.NormaliseWeights: requires non-empty weights, as the assertion at src/limiter/partitioning.rs:61 does, and a non-zero total. A zero total makes every fraction NaN or infinite in `f64`, which the reals cannot represent.
- Partitioning.CreateStaticPartitions: requires, besides a non-zero total, weights all of one sign, which puts every fraction in [0, 1] (`OneSignedAreFractions`). With weights of mixed signs some fraction is negative. `fractional_limit` (src/limiter/partitioning.rs:204-211) then fails on it with a panic once limit × fraction <= −1, and `FractionalLimit` models only fractions in [0, 1]. The counters start at zero, so partitioning a limiter that already has tokens out is not modelled.
- Partitioning.NormalisedAreFractions: states each fraction as weight / total rather than fraction × total = weight. The two are equivalent for a positive total.
- Gradient.Next: samples the long window with the corrected `ExpSample`. In the code as written, `long_window_latency.sample` (src/limits/gradient.rs:92) panics at src/moving_avg.rs:44 once the window is warmed up, whenever a latency is below the long-window value. That is the everyday case of latency recovering. See the first row of Findings.
- Gradient.Gradient.Update: follows `Gradient.Next`, so it does not panic on a latency below the warmed-up long window, as the code as written does (src/limits/gradient.rs:92, src/moving_avg.rs:44).
- Partitioning.Admits: uses the saturating `Spare`. As written (src/limiter/partitioning.rs:146, 159), once any partition has borrowed past its own limit its spare wraps. Every partition is then admitted, unless the wrapped total (src/limiter/partitioning.rs:124) is a multiple of 2^64, in which case it is refused where the corrected rule admits. `AdmitsAsWritten` models that test. See Findings.
- Partitioning.AdmissionRule: states the rule for the saturating spare, not for the wrapping one as written.
- Partitioning.TryAcquireStep: admits by `Admits`, the saturating spare, not by the wrapping one as written.
- Partitioning.AcquireStartStep: admits by `Admits`, the saturating spare, not by the wrapping one as written.
- Partitioning.TryAcquireRule: states the rule for the saturating spare, not for the wrapping one as written.
- Partitioning.AcquireRule: states the rule for the saturating spare, not for the wrapping one as written.
- Partitioning.Scheduler.TryAcquire: follows `TryAcquireStep`, with the saturating spare.
- Partitioning.Scheduler.AcquireStart: follows `AcquireStartStep`, with the saturating spare.
- Partitioning.Scheduler.Spare: sums the saturating `Spare`, not the wrapping one as written.
- Partitioning.ReuseStep: takes the receiver's liveness as a parameter. As written, the guard held across `rx.await` means the receiver is always gone (`ReuseAsWritten`; see Findings). The scheduler's `ReusePermit` keeps the parameter so that the corrected, served trace can be stated.
- Partitioning.Scheduler.AcquireFinish: uses the corrected charge-once rule (see Findings); the double charge is kept only in `AcquireFinishAsWritten`.
- `CapacityUnit` is taken as `usize`; its definition is not part of this model. The `approx` conversions in `fractional_limit` and the buffer cannot fail for limits within usize, and are not modelled as failing.
- The `Mean for &Duration` impl (tests/iter_ext.rs:44-51) is not modelled. It calls `mean()` on the same item type and so dispatches back to itself without terminating.
- IterExt.Mean: the usize item counter cannot overflow here, since the counter is unbounded; only its `as u32` truncation is modelled.
- `Aimd` and `Vegas` keep the default minimum limit of 1, since no builder changes it.

## Findings

| source | as written | input that shows it | evidently intended | confidence | as-written member | corrected member |
|---|---|---|---|---|---|---|
| src/moving_avg.rs:44 | After warm-up, `sample - self.value` is an unchecked `Duration` subtraction | ten 25 ms samples, then one of 10 ms | an exponential average that also moves down towards faster samples | not executed | MovingAvg.ExpSampleAsWritten (MovingAvg.WarmupThenFasterSamplePanics) | MovingAvg.ExpSample |
| src/aggregation.rs:88-91 | The percentile indexes `latencies` in insertion order, never sorted | latencies 5, 3, 1 ms at p = 0.99 give 1 ms | the rank-th smallest latency, 5 ms | not executed | Aggregation.PercentileAsWritten (Aggregation.UnsortedPercentileDiffers) | Aggregation.PercentileOf |
| src/limiter/partitioning.rs:146 | `partition_limit - self.in_flight()` wraps once a partition has borrowed past its limit, and the fold at src/limiter/partitioning.rs:124 adds the wrapped spares in usize | total 100, fractions 0.5 and 0.5, in flight 51 and 45 with 4 permits free: the spare as written is 2^64 − 6, so partition 0 is admitted into partition 1's buffer. At 51 and 39 the wrapped total is 0 and partition 0 is refused despite a spare of 6 | saturating subtraction: no spare from an over-limit partition | not executed | Partitioning.SpareAsWritten (Partitioning.WrappedSpareAdmitsFullPartition, Partitioning.WrappedTotalRefusesBorrower) | Partitioning.Spare |
| src/limiter/partitioning.rs:190-193 | A token received from a waiter, already charged by `reuse_permit` (src/limiter/partitioning.rs:103-107), is charged to the partition a second time. This is latent as written: the held guard of the next row means no waiter is ever served. It shows once that guard is released after the push | total limit 1, one partition: token held, second caller queues, first token dropped and handed to the waiter; the partition counter ends at 1 with nothing in flight | charge each token to its partition once | not executed | Partitioning.AcquireFinishAsWritten (Partitioning.WaiterTraceServes, Partitioning.WaiterTraceEnds) | Partitioning.AcquireFinishStep |
| src/limiter/partitioning.rs:180-185 | The queued caller keeps the write guard on `waiters` while it awaits its receiver, so `reuse_permit` (src/limiter/partitioning.rs:100) cannot pop it before its timeout drops guard and receiver together; the send then always fails | total limit 1, one partition: token held, second caller queues, first token dropped; the second caller times out unserved and the counters return to zero | release the guard after `push_back`, so that the oldest waiter receives the permit | not executed | Partitioning.ReuseAsWritten (Partitioning.HeldGuardNeverServes, Partitioning.WaiterTraceTimesOut) | Partitioning.ReuseStep (Partitioning.WaiterTraceServes) |
