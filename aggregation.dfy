/** Sample aggregators: several samples combined into one, either by averaging the
    latencies or by taking a latency percentile. Both report the largest number of jobs
    in flight and an overload if any sample was one. */
module Aggregation {
  import opened Base

  // ---------------------------------------------------------------------------
  // What an aggregate is, as functions of all samples taken since the last reset

  function TotalLatency(h: seq<Sample>): nat {
    if h == [] then 0 else TotalLatency(h[..|h| - 1]) + h[|h| - 1].latency
  }

  /** The largest `in_flight` of the samples (0 when there are none). */
  function MaxInFlight(h: seq<Sample>): (r: nat)
    ensures forall i :: 0 <= i < |h| ==> h[i].inFlight <= r
    ensures (h == [] && r == 0) || exists i :: 0 <= i < |h| && h[i].inFlight == r
  {
    if h == [] then 0
    else
      var prev := MaxInFlight(h[..|h| - 1]);
      assert forall i :: 0 <= i < |h| - 1 ==> h[..|h| - 1][i] == h[i];
      Max(prev, h[|h| - 1].inFlight)
  }

  /** Overload exactly when some sample was an overload. */
  function CombinedOutcome(h: seq<Sample>): (r: Outcome)
    ensures r == Overload <==> exists i :: 0 <= i < |h| && h[i].outcome == Overload
  {
    if h == [] then Success
    else
      var prev := CombinedOutcome(h[..|h| - 1]);
      assert forall i :: 0 <= i < |h| - 1 ==> h[..|h| - 1][i] == h[i];
      OverloadedOr(prev, h[|h| - 1].outcome)
  }

  function Latencies(h: seq<Sample>): (r: seq<nat>)
    ensures |r| == |h| && forall i :: 0 <= i < |h| ==> r[i] == h[i].latency
  {
    if h == [] then [] else Latencies(h[..|h| - 1]) + [h[|h| - 1].latency]
  }

  lemma LatenciesSnoc(h: seq<Sample>, s: Sample)
    ensures Latencies(h + [s]) == Latencies(h) + [s.latency]
  {
    assert (h + [s])[..|h|] == h;
  }

  lemma TotalLatencySnoc(h: seq<Sample>, s: Sample)
    ensures TotalLatency(h + [s]) == TotalLatency(h) + s.latency
  {
    assert (h + [s])[..|h|] == h;
  }

  lemma MaxInFlightSnoc(h: seq<Sample>, s: Sample)
    ensures MaxInFlight(h + [s]) == Max(MaxInFlight(h), s.inFlight)
  {
    assert (h + [s])[..|h|] == h;
  }

  lemma CombinedOutcomeSnoc(h: seq<Sample>, s: Sample)
    ensures CombinedOutcome(h + [s]) == OverloadedOr(CombinedOutcome(h), s.outcome)
  {
    assert (h + [s])[..|h|] == h;
  }

  // ---------------------------------------------------------------------------
  // Average

  /** The mean latency, truncated to whole nanoseconds. */
  function AverageLatency(h: seq<Sample>): nat
    requires |h| > 0
  {
    TotalLatency(h) / |h|
  }

  lemma MeanBelowTotal(t: nat, n: nat)
    requires n > 0
    ensures n * (t / n) <= t
  {
    assert n * (t / n) + t % n == t;
  }

  /** The aggregate an `Average` returns after the samples `h`. */
  function AverageAggregate(h: seq<Sample>): (r: Sample)
    requires |h| > 0
    ensures |h| * r.latency <= TotalLatency(h)
    ensures forall i :: 0 <= i < |h| ==> h[i].inFlight <= r.inFlight
    ensures r.outcome == Overload <==> exists i :: 0 <= i < |h| && h[i].outcome == Overload
  {
    MeanBelowTotal(TotalLatency(h), |h|);
    Sample(AverageLatency(h), MaxInFlight(h), CombinedOutcome(h))
  }

  lemma {:induction false} TotalLatencyBounds(h: seq<Sample>, lo: nat, hi: nat)
    requires forall i :: 0 <= i < |h| ==> lo <= h[i].latency <= hi
    ensures |h| * lo <= TotalLatency(h) <= |h| * hi
  {
    if h != [] {
      var init := h[..|h| - 1];
      assert forall i :: 0 <= i < |init| ==> init[i] == h[i];
      TotalLatencyBounds(init, lo, hi);
      assert |h| * lo == |init| * lo + lo;
      assert |h| * hi == |init| * hi + hi;
    }
  }

  /** The average lies between the smallest and the largest latency averaged. */
  lemma {:induction false} AverageWithinRange(h: seq<Sample>, lo: nat, hi: nat)
    requires |h| > 0 && forall i :: 0 <= i < |h| ==> lo <= h[i].latency <= hi
    ensures lo <= AverageLatency(h) <= hi
  {
    TotalLatencyBounds(h, lo, hi);
    DivBetween(TotalLatency(h), |h|, lo, hi);
  }

  // ---------------------------------------------------------------------------
  // Percentile

  const DEFAULT_PERCENTILE: real := 0.5

  /** `ceil(len × percentile)`, the one-based rank of the percentile. */
  function PercentileRank(n: nat, p: real): (r: nat)
    requires n > 0 && 0.0 < p < 1.0
    ensures 1 <= r <= n
  {
    var x := n as real * p;
    RankBounds(n, p);
    var r := CeilNat(x);
    assert 0.0 < r as real < n as real + 1.0;
    r
  }

  lemma RankBounds(n: nat, p: real)
    requires n > 0 && 0.0 < p < 1.0
    ensures 0.0 < n as real * p < n as real
  {
    MulStrict(n as real, p, 1.0);
    MulStrict(n as real, 0.0, p);
  }

  predicate Sorted(s: seq<nat>) {
    forall i, j :: 0 <= i < j < |s| ==> s[i] <= s[j]
  }

  /** Places `x` in front of the first element not smaller than it. */
  function Insert(x: nat, s: seq<nat>): (r: seq<nat>)
    ensures |r| == |s| + 1
    ensures s == [] ==> r == [x]
    ensures s != [] ==> r[0] == x || r[0] == s[0]
  {
    if s == [] then [x]
    else if x <= s[0] then [x] + s
    else
      assert s == [s[0]] + s[1..];
      [s[0]] + Insert(x, s[1..])
  }

  /** The tail of a sorted sequence is sorted. */
  lemma SortedTail(s: seq<nat>)
    requires Sorted(s) && s != []
    ensures Sorted(s[1..])
  {
    var t := s[1..];
    forall i, j | 0 <= i < j < |t|
      ensures t[i] <= t[j]
    {
      assert t[i] == s[i + 1] && t[j] == s[j + 1];
    }
  }

  /** A sorted sequence stays sorted with an element in front that is no larger than
      its head. */
  lemma SortedPrepend(h: nat, t: seq<nat>)
    requires Sorted(t) && (t != [] ==> h <= t[0])
    ensures Sorted([h] + t)
  {
    var out := [h] + t;
    forall i, j | 0 <= i < j < |out|
      ensures out[i] <= out[j]
    {
      assert out[j] == t[j - 1];
      if i == 0 {
        assert t[0] <= t[j - 1];
      } else {
        assert out[i] == t[i - 1];
      }
    }
  }

  lemma {:induction false} InsertSorted(x: nat, s: seq<nat>)
    requires Sorted(s)
    ensures Sorted(Insert(x, s))
  {
    if s == [] {
    } else if x <= s[0] {
      SortedPrepend(x, s);
    } else {
      var t := s[1..];
      SortedTail(s);
      InsertSorted(x, t);
      var r := Insert(x, t);
      assert Insert(x, s) == [s[0]] + r;
      assert s[0] <= r[0] by {
        if r[0] != x {
          assert r[0] == t[0] == s[1];
        }
      }
      SortedPrepend(s[0], r);
    }
  }

  /** An insertion sort. */
  function Sort(s: seq<nat>): (r: seq<nat>)
    ensures |r| == |s|
  {
    if s == [] then []
    else
      assert s == [s[0]] + s[1..];
      Insert(s[0], Sort(s[1..]))
  }

  lemma {:induction false} InsertPermutes(x: nat, s: seq<nat>)
    ensures multiset(Insert(x, s)) == multiset(s) + multiset{x}
  {
    if s != [] && x > s[0] {
      InsertPermutes(x, s[1..]);
      assert s == [s[0]] + s[1..];
    }
  }

  /** The sort yields a permutation of its input. */
  lemma {:induction false} SortPermutes(s: seq<nat>)
    ensures multiset(Sort(s)) == multiset(s)
  {
    if s != [] {
      SortPermutes(s[1..]);
      InsertPermutes(s[0], Sort(s[1..]));
      assert s == [s[0]] + s[1..];
    }
  }

  /** The sort yields a sorted sequence. */
  lemma {:induction false} SortSorted(s: seq<nat>)
    ensures Sorted(Sort(s))
  {
    if s != [] {
      SortSorted(s[1..]);
      InsertSorted(s[0], Sort(s[1..]));
    }
  }

  lemma {:induction false} SortOfSorted(s: seq<nat>)
    requires Sorted(s)
    ensures Sort(s) == s
  {
    if s != [] {
      var t := s[1..];
      SortedTail(s);
      SortOfSorted(t);
      assert Sort(s) == Insert(s[0], Sort(t));
      if t != [] {
        assert s[0] <= s[1] == t[0];
      }
      assert s == [s[0]] + t;
    }
  }

  /** `Percentile::sample` as written: the element at the rank among the latencies in
      the order they arrived. */
  function PercentileAsWritten(lats: seq<nat>, p: real): (r: nat)
    requires |lats| > 0 && 0.0 < p < 1.0
    ensures r in multiset(lats)
  {
    lats[PercentileRank(|lats|, p) - 1]
  }

  /** The percentile: the element at the rank among the latencies in increasing order. */
  function PercentileOf(lats: seq<nat>, p: real): (r: nat)
    requires |lats| > 0 && 0.0 < p < 1.0
    ensures r in multiset(lats)
  {
    var sorted := Sort(lats);
    var k := PercentileRank(|lats|, p);
    SortPermutes(lats);
    assert sorted[k - 1] in multiset(sorted);
    sorted[k - 1]
  }

  /** The percentile has at least `rank` latencies at or below it and at least
      `len − rank + 1` at or above it, counted in the sorted order. */
  lemma PercentileIsOrderStatistic(lats: seq<nat>, p: real)
    requires |lats| > 0 && 0.0 < p < 1.0
    ensures var sorted := Sort(lats);
            var k := PercentileRank(|lats|, p);
            (forall i :: 0 <= i < k ==> sorted[i] <= PercentileOf(lats, p))
            && (forall i :: k - 1 <= i < |lats| ==> PercentileOf(lats, p) <= sorted[i])
  {
    var sorted := Sort(lats);
    var k := PercentileRank(|lats|, p);
    SortSorted(lats);
    assert PercentileOf(lats, p) == sorted[k - 1];
    forall i | 0 <= i < k
      ensures sorted[i] <= sorted[k - 1]
    {
      if i < k - 1 {
        assert Sorted(sorted);
      }
    }
    forall i | k - 1 <= i < |lats|
      ensures sorted[k - 1] <= sorted[i]
    {
      if k - 1 < i {
        assert Sorted(sorted);
      }
    }
  }

  /** Where the latencies arrived in increasing order (as in the unit tests) the two
      readings agree. */
  lemma AsWrittenAgreesWhenSorted(lats: seq<nat>, p: real)
    requires |lats| > 0 && 0.0 < p < 1.0 && Sorted(lats)
    ensures PercentileAsWritten(lats, p) == PercentileOf(lats, p)
  {
    SortOfSorted(lats);
  }

  /** 5 ms, 3 ms, 1 ms at the 99th percentile: the rank is 3, the source returns the
      third arrival (1 ms), the largest latency is 5 ms. */
  lemma UnsortedPercentileDiffers()
    ensures var lats := [5 * NANOS_PER_MILLI, 3 * NANOS_PER_MILLI, 1 * NANOS_PER_MILLI];
            PercentileAsWritten(lats, 0.99) == 1 * NANOS_PER_MILLI
            && PercentileOf(lats, 0.99) == 5 * NANOS_PER_MILLI
  {
    RankOfThree();
    SortDescendingThree(5 * NANOS_PER_MILLI, 3 * NANOS_PER_MILLI, 1 * NANOS_PER_MILLI);
  }

  lemma SortDescendingThree(a: nat, b: nat, c: nat)
    requires a > b > c
    ensures Sort([a, b, c]) == [c, b, a]
  {
    assert [a, b, c][1..] == [b, c];
    assert [b, c][1..] == [c];
    assert [c][1..] == [] && [b][1..] == [] && [c, b][1..] == [b];
    assert Sort([c]) == Insert(c, []) == [c];
    assert Insert(b, [c]) == [c] + Insert(b, []) == [c, b];
    assert Sort([b, c]) == [c, b];
    assert Insert(a, [b]) == [b] + Insert(a, []) == [b, a];
    assert Insert(a, [c, b]) == [c] + Insert(a, [b]) == [c, b, a];
  }

  /** The ranks used by the unit tests: `ceil(3 × 0.01) = 1` and `ceil(3 × 0.99) = 3`. */
  lemma RankOfThree()
    ensures PercentileRank(3, 0.01) == 1 && PercentileRank(3, 0.99) == 3
  {
    assert (3 as real * 0.01).Floor == 0;
    assert (3 as real * 0.99).Floor == 2;
  }

  /** The aggregate a `Percentile` returns after the samples `h`. */
  function PercentileAggregate(h: seq<Sample>, p: real): (r: Sample)
    requires |h| > 0 && 0.0 < p < 1.0
    ensures r.latency in multiset(Latencies(h))
    ensures forall i :: 0 <= i < |h| ==> h[i].inFlight <= r.inFlight
    ensures r.outcome == Overload <==> exists i :: 0 <= i < |h| && h[i].outcome == Overload
  {
    Sample(PercentileOf(Latencies(h), p), MaxInFlight(h), CombinedOutcome(h))
  }

  // ---------------------------------------------------------------------------
  // Unit tests

  function TestSamples(): seq<Sample> {
    [Sample(1 * NANOS_PER_MILLI, 1, Success),
     Sample(3 * NANOS_PER_MILLI, 5, Overload),
     Sample(5 * NANOS_PER_MILLI, 3, Success)]
  }

  lemma TestSamplesFacts()
    ensures TotalLatency(TestSamples()) == 9 * NANOS_PER_MILLI
    ensures MaxInFlight(TestSamples()) == 5
    ensures CombinedOutcome(TestSamples()) == Overload
    ensures Latencies(TestSamples()) == [1 * NANOS_PER_MILLI, 3 * NANOS_PER_MILLI, 5 * NANOS_PER_MILLI]
  {
    var h := TestSamples();
    var h2 := [h[0], h[1]];
    var h1 := [h[0]];
    assert h[..2] == h2 && h2[..1] == h1 && h1[..0] == [];
    assert TotalLatency(h1) == 1 * NANOS_PER_MILLI;
    assert TotalLatency(h2) == 4 * NANOS_PER_MILLI;
    assert MaxInFlight(h1) == 1;
    assert MaxInFlight(h2) == 5;
    assert CombinedOutcome(h2) == Overload;
    assert Latencies(h1) == [1 * NANOS_PER_MILLI];
    assert Latencies(h2) == [1 * NANOS_PER_MILLI, 3 * NANOS_PER_MILLI];
  }

  /** Averaging 1, 3 and 5 ms gives 3 ms, with the largest in-flight count (5) and an
      overload. */
  lemma AverageUnitTest()
    ensures AverageAggregate(TestSamples()) == Sample(3 * NANOS_PER_MILLI, 5, Overload)
  {
    TestSamplesFacts();
  }

  /** The 1st percentile of those samples is 1 ms, the 99th is 5 ms. */
  lemma PercentileUnitTests()
    ensures PercentileAggregate(TestSamples(), 0.01) == Sample(1 * NANOS_PER_MILLI, 5, Overload)
    ensures PercentileAggregate(TestSamples(), 0.99) == Sample(5 * NANOS_PER_MILLI, 5, Overload)
  {
    TestSamplesFacts();
    SortAscendingThree(1 * NANOS_PER_MILLI, 3 * NANOS_PER_MILLI, 5 * NANOS_PER_MILLI);
    RankOfThree();
  }

  lemma SortAscendingThree(a: nat, b: nat, c: nat)
    requires a <= b <= c
    ensures Sort([a, b, c]) == [a, b, c]
  {
    assert [a, b, c][1..] == [b, c];
    assert [b, c][1..] == [c];
    assert Sort([c]) == Insert(c, []) == [c];
    assert Sort([b, c]) == Insert(b, [c]) == [b, c];
    assert Insert(a, [b, c]) == [a, b, c];
  }

  /** A single sample aggregates to itself, whichever aggregator and percentile. */
  lemma SingleSampleIsItself(s: Sample, p: real)
    requires 0.0 < p < 1.0
    ensures AverageAggregate([s]) == s
    ensures PercentileAggregate([s], p) == s
  {
    assert [s][..0] == [];
    assert TotalLatency([s]) == s.latency;
    assert MaxInFlight([s]) == s.inFlight;
    assert CombinedOutcome([s]) == s.outcome;
    assert Latencies([s]) == [s.latency];
    assert Sort([s.latency]) == [s.latency];
  }

  // ---------------------------------------------------------------------------
  // The aggregators themselves

  class Average {
    var latencySum: nat
    var maxInFlight: nat
    var overload: Outcome
    var samples: nat
    /** The samples taken since the last reset. */
    ghost var history: seq<Sample>

    ghost predicate Valid()
      reads this
    {
      latencySum == TotalLatency(history) && maxInFlight == MaxInFlight(history)
      && overload == CombinedOutcome(history) && samples == |history|
    }

    constructor Default()
      ensures Valid() && history == []
    {
      latencySum := 0;
      maxInFlight := 0;
      overload := Success;
      samples := 0;
      history := [];
    }

    method Sample(s: Sample) returns (r: Sample)
      requires Valid()
      modifies this
      ensures Valid() && history == old(history) + [s]
      ensures r == AverageAggregate(history)
    {
      ghost var h := history + [s];
      TotalLatencySnoc(history, s);
      MaxInFlightSnoc(history, s);
      CombinedOutcomeSnoc(history, s);
      latencySum := latencySum + s.latency;
      maxInFlight := Max(maxInFlight, s.inFlight);
      overload := OverloadedOr(overload, s.outcome);
      samples := samples + 1;
      history := h;
      assert latencySum / samples == AverageLatency(h);
      r := Base.Sample(latencySum / samples, maxInFlight, overload);
    }

    function SampleSize(): (r: nat)
      reads this
      ensures Valid() ==> r == |history|
    {
      samples
    }

    method Reset()
      modifies this
      ensures Valid() && history == []
    {
      latencySum := 0;
      maxInFlight := 0;
      overload := Success;
      samples := 0;
      history := [];
    }
  }

  class Percentile {
    const percentile: real
    var maxInFlight: nat
    var overload: Outcome
    var latencies: seq<nat>
    /** The samples taken since the last reset. */
    ghost var history: seq<Sample>

    ghost predicate Valid()
      reads this
    {
      0.0 < percentile < 1.0
      && latencies == Latencies(history) && maxInFlight == MaxInFlight(history)
      && overload == CombinedOutcome(history)
    }

    /** `Percentile::new`, which refuses a percentile outside `(0, 1)`. */
    constructor New(p: real)
      requires 0.0 < p < 1.0
      ensures Valid() && percentile == p && history == []
    {
      percentile := p;
      maxInFlight := 0;
      overload := Success;
      latencies := [];
      history := [];
    }

    constructor Default()
      ensures Valid() && percentile == DEFAULT_PERCENTILE && history == []
    {
      percentile := DEFAULT_PERCENTILE;
      maxInFlight := 0;
      overload := Success;
      latencies := [];
      history := [];
    }

    method Sample(s: Sample) returns (r: Sample)
      requires Valid()
      modifies this`latencies, this`maxInFlight, this`overload, this`history
      ensures Valid() && history == old(history) + [s]
      ensures latencies == old(latencies) + [s.latency]
      ensures r == PercentileAggregate(history, percentile)
    {
      LatenciesSnoc(history, s);
      MaxInFlightSnoc(history, s);
      CombinedOutcomeSnoc(history, s);
      history := history + [s];
      latencies := latencies + [s.latency];
      maxInFlight := Max(maxInFlight, s.inFlight);
      overload := OverloadedOr(overload, s.outcome);
      r := Base.Sample(PercentileOf(latencies, percentile), maxInFlight, overload);
    }

    function SampleSize(): (r: nat)
      reads this
      ensures Valid() ==> r == |history|
    {
      |latencies|
    }

    /** Empties the aggregate; the percentile is kept. */
    method Reset()
      requires Valid()
      modifies this`latencies, this`maxInFlight, this`overload, this`history
      ensures Valid() && history == []
    {
      maxInFlight := 0;
      overload := Success;
      latencies := [];
      history := [];
    }
  }
}
