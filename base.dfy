/** Types and arithmetic shared by every part of the limiter.
    Durations are whole nanoseconds (`nat`), floating-point values are `real`, and
    the integer conversions of the source (`floor`, `ceil`, `as usize`) are spelled out. */
module Base {

  datatype Option<T> = None | Some(value: T)

  /** The outcome of a job: it succeeded, or it failed because of load. */
  datatype Outcome = Success | Overload

  /** Combines two outcomes; an overload on either side wins. */
  function OverloadedOr(a: Outcome, b: Outcome): (r: Outcome)
    ensures r == Overload <==> a == Overload || b == Overload
  {
    if a == Overload then Overload else b
  }

  /** One completed job (or an aggregate of several): latency, jobs in flight, outcome. */
  datatype Sample = Sample(latency: nat, inFlight: nat, outcome: Outcome)

  const NANOS_PER_MICRO: nat := 1_000
  const NANOS_PER_MILLI: nat := 1_000_000
  const NANOS_PER_SEC: nat := 1_000_000_000

  /** Samples faster than one microsecond are ignored by the delay-based algorithms. */
  const MIN_SAMPLE_LATENCY: nat := 1 * NANOS_PER_MICRO

  const DEFAULT_MIN_LIMIT: nat := 1
  const DEFAULT_MAX_LIMIT: nat := 1000

  /** The largest duration: u64::MAX seconds and 999,999,999 nanoseconds. */
  const DURATION_MAX: nat := 18_446_744_073_709_551_615 * NANOS_PER_SEC + 999_999_999

  const USIZE_MODULUS: nat := 0x1_0000_0000_0000_0000

  function Min(a: int, b: int): (r: int)
    ensures r <= a && r <= b && (r == a || r == b)
  {
    if a <= b then a else b
  }

  function Max(a: int, b: int): (r: int)
    ensures r >= a && r >= b && (r == a || r == b)
  {
    if a >= b then a else b
  }

  /** `Ord::clamp`, which refuses (panics) when the bounds are crossed. */
  function Clamp(x: int, lo: int, hi: int): (r: int)
    requires lo <= hi
    ensures lo <= r <= hi
    ensures lo <= x <= hi ==> r == x
    ensures x < lo ==> r == lo
    ensures x > hi ==> r == hi
  {
    if x < lo then lo else if x > hi then hi else x
  }

  /** `f64::clamp`, over the reals. */
  function RealClamp(x: real, lo: real, hi: real): (r: real)
    requires lo <= hi
    ensures lo <= r <= hi
    ensures lo <= x <= hi ==> r == x
    ensures x < lo ==> r == lo
    ensures x > hi ==> r == hi
  {
    if x < lo then lo else if x > hi then hi else x
  }

  function RealMax(a: real, b: real): (r: real)
    ensures r >= a && r >= b && (r == a || r == b)
  {
    if a >= b then a else b
  }

  /** `x.floor() as usize` (and `x as usize`) for a non-negative value. */
  function FloorNat(x: real): (r: nat)
    requires x >= 0.0
    ensures r as real <= x < r as real + 1.0
  {
    x.Floor
  }

  /** `x.ceil()` converted to an unsigned integer, for a non-negative value. */
  function CeilNat(x: real): (r: nat)
    requires x >= 0.0
    ensures x <= r as real < x + 1.0
  {
    var f := x.Floor;
    if f as real == x then f else f + 1
  }

  /** The ceiling of a value no larger than a whole number is no larger than it. */
  lemma CeilAtMost(x: real, n: nat)
    requires 0.0 <= x <= n as real
    ensures CeilNat(x) <= n
  {
    var r := CeilNat(x);
    assert (r as real) < (n + 1) as real;
  }

  /** `usize::saturating_sub`. */
  function SaturatingSub(a: nat, b: nat): (r: nat)
    ensures r == 0 <==> a <= b
    ensures a >= b ==> r + b == a
  {
    if a >= b then a - b else 0
  }

  /** Multiplying by a non-negative number keeps the order of the factors. */
  lemma MulBetween(x: real, lo: real, k: real, hi: real)
    requires x >= 0.0 && lo <= k <= hi
    ensures x * lo <= x * k <= x * hi
  {
  }

  /** A quotient compared with a constant, as the product it stands for. */
  lemma RatioCompare(a: real, b: real, k: real)
    requires b > 0.0
    ensures a / b > k <==> a > k * b
    ensures a / b <= k <==> a <= k * b
  {
    var q := a / b;
    assert q * b == a;
    if q > k {
      MulStrict(b, k, q);
    } else {
      MulBetween(b, q, q, k);
    }
  }

  lemma MulStrict(x: real, lo: real, hi: real)
    requires x > 0.0 && lo < hi
    ensures x * lo < x * hi
  {
  }

  lemma FloorMonotone(x: real, y: real)
    requires 0.0 <= x <= y
    ensures FloorNat(x) <= FloorNat(y)
  {
  }

  lemma FloorOfNat(n: nat)
    ensures FloorNat(n as real) == n
  {
  }

  /** The sum of some durations. */
  function SumOf(xs: seq<nat>): nat {
    if xs == [] then 0 else SumOf(xs[..|xs| - 1]) + xs[|xs| - 1]
  }

  /** Floor division keeps bounds: from `n × lo ≤ t ≤ n × hi` follows `lo ≤ t / n ≤ hi`. */
  lemma DivBetween(t: nat, n: nat, lo: nat, hi: nat)
    requires n > 0 && n * lo <= t <= n * hi
    ensures lo <= t / n <= hi
  {
    var q := t / n;
    assert t == q * n + t % n && t % n < n;
    MulMono(q + 1, lo, n);
    MulMono(hi + 1, q, n);
    assert (q + 1) * n == q * n + n;
    assert (hi + 1) * n == hi * n + n;
  }

  lemma {:induction false} MulMono(a: nat, b: nat, n: nat)
    ensures a <= b ==> a * n <= b * n
  {
    if n > 0 {
      MulMono(a, b, n - 1);
      assert a * n == a * (n - 1) + a;
      assert b * n == b * (n - 1) + b;
    }
  }
}
