/** Static partitions of one limiter: each partition owns a fraction of the limit, may
    borrow capacity that other partitions leave spare, and queues behind a FIFO of waiters
    when it can do neither. A released permit goes to the oldest waiter. */
module Partitioning {
  import opened Base
  import opened Tokens

  /** The share of a partition's limit kept back from borrowers. */
  const BUFFER_FRACTION: real := 0.1

  /** `fractional_limit`: `⌈limit × fraction⌉`. */
  function FractionalLimit(limit: nat, fraction: real): (r: nat)
    requires 0.0 <= fraction <= 1.0
    ensures (r as real) - 1.0 < limit as real * fraction <= r as real
    ensures r <= limit
    ensures fraction > 0.0 && limit >= 1 ==> r >= 1
  {
    FractionOf(limit, fraction);
    CeilNat(limit as real * fraction)
  }

  /** `limit × fraction` lies in `[0, limit]`, and is positive when both are. */
  lemma FractionOf(limit: nat, fraction: real)
    requires 0.0 <= fraction <= 1.0
    ensures 0.0 <= limit as real * fraction <= limit as real
    ensures CeilNat(limit as real * fraction) <= limit
    ensures fraction > 0.0 && limit >= 1 ==> limit as real * fraction > 0.0
  {
    var x := limit as real;
    MulBetween(x, 0.0, fraction, 1.0);
    assert x * 1.0 == x && x * 0.0 == 0.0;
    if fraction > 0.0 && limit >= 1 {
      MulStrict(x, 0.0, fraction);
    }
    CeilAtMost(x * fraction, limit);
  }

  /** `⌈partition limit × 0.1⌉`, the part of a partition's limit it never lends. */
  function Buffer(partitionLimit: nat): (r: nat)
    ensures r <= partitionLimit
    ensures partitionLimit > 0 ==> r > 0
  {
    CeilAtMost(partitionLimit as real * BUFFER_FRACTION, partitionLimit);
    CeilNat(partitionLimit as real * BUFFER_FRACTION)
  }

  /** `PartitionState::spare` with the difference `limit − in_flight` saturating at zero:
      what the partition can lend is what it neither uses nor keeps as its buffer. */
  function Spare(totalLimit: nat, fraction: real, inFlight: nat): (r: nat)
    requires 0.0 <= fraction <= 1.0
    ensures var limit := FractionalLimit(totalLimit, fraction);
            (r > 0 <==> inFlight + Buffer(limit) < limit)
            && (r > 0 ==> r + inFlight + Buffer(limit) == limit)
  {
    var limit := FractionalLimit(totalLimit, fraction);
    SaturatingSub(SaturatingSub(limit, inFlight), Buffer(limit))
  }

  /** `PartitionState::spare` as written: `limit − in_flight` is an unsigned subtraction
      that wraps around (panics, in a debug build) once the partition has borrowed past
      its own limit. Counters are below 2^64. */
  function SpareAsWritten(totalLimit: nat, fraction: real, inFlight: nat): nat
    requires 0.0 <= fraction <= 1.0 && inFlight < USIZE_MODULUS
  {
    var limit := FractionalLimit(totalLimit, fraction);
    SaturatingSub((limit - inFlight) % USIZE_MODULUS, Buffer(limit))
  }

  /** Both agree as long as the partition is within its own limit. */
  lemma SpareAsWrittenAgreesWithinLimit(totalLimit: nat, fraction: real, inFlight: nat)
    requires 0.0 <= fraction <= 1.0 && totalLimit < USIZE_MODULUS
    requires inFlight <= FractionalLimit(totalLimit, fraction)
    ensures SpareAsWritten(totalLimit, fraction, inFlight) == Spare(totalLimit, fraction, inFlight)
  {
  }

  predicate ValidFractions(fs: seq<real>) {
    forall k | 0 <= k < |fs| :: 0.0 <= fs[k] <= 1.0
  }

  /** `Scheduler::spare`: the spare capacity of all partitions together. */
  function TotalSpare(totalLimit: nat, fs: seq<real>, inFlight: seq<nat>): nat
    requires ValidFractions(fs) && |inFlight| == |fs|
  {
    if fs == [] then 0
    else
      var n := |fs| - 1;
      TotalSpare(totalLimit, fs[..n], inFlight[..n]) + Spare(totalLimit, fs[n], inFlight[n])
  }

  /** `Scheduler::spare` as written: the fold over `SpareAsWritten` adds in `usize`,
      which wraps modulo 2^64 like the subtraction inside each spare. */
  function TotalSpareAsWritten(totalLimit: nat, fs: seq<real>, inFlight: seq<nat>): (r: nat)
    requires ValidFractions(fs) && |inFlight| == |fs|
    requires forall k | 0 <= k < |inFlight| :: inFlight[k] < USIZE_MODULUS
    ensures r < USIZE_MODULUS
  {
    if fs == [] then 0
    else
      var n := |fs| - 1;
      (TotalSpareAsWritten(totalLimit, fs[..n], inFlight[..n]) + SpareAsWritten(totalLimit, fs[n], inFlight[n]))
        % USIZE_MODULUS
  }

  /** Some partition lends capacity exactly when one of them uses less than its limit
      minus its buffer. */
  lemma {:induction false} TotalSpareZero(totalLimit: nat, fs: seq<real>, inFlight: seq<nat>)
    requires ValidFractions(fs) && |inFlight| == |fs|
    ensures TotalSpare(totalLimit, fs, inFlight) > 0 <==>
            exists k | 0 <= k < |fs| :: Spare(totalLimit, fs[k], inFlight[k]) > 0
    decreases |fs|
  {
    if fs != [] {
      var n := |fs| - 1;
      TotalSpareZero(totalLimit, fs[..n], inFlight[..n]);
      var before := TotalSpare(totalLimit, fs[..n], inFlight[..n]);
      var last := Spare(totalLimit, fs[n], inFlight[n]);
      assert TotalSpare(totalLimit, fs, inFlight) == before + last;
      if before > 0 {
        var k :| 0 <= k < n && Spare(totalLimit, fs[..n][k], inFlight[..n][k]) > 0;
        assert fs[..n][k] == fs[k] && inFlight[..n][k] == inFlight[k];
        assert Spare(totalLimit, fs[k], inFlight[k]) > 0;
      } else if last == 0 {
        forall k | 0 <= k < |fs| ensures Spare(totalLimit, fs[k], inFlight[k]) == 0 {
          if k < n {
            assert fs[..n][k] == fs[k] && inFlight[..n][k] == inFlight[k];
          }
        }
      }
    }
  }

  /** The admission test of `try_acquire` and `acquire_timeout`: the partition is below
      its own limit, or some partition has capacity to lend. */
  predicate Admits(totalLimit: nat, fs: seq<real>, inFlight: seq<nat>, index: nat)
    requires ValidFractions(fs) && |inFlight| == |fs| && index < |fs|
  {
    inFlight[index] < FractionalLimit(totalLimit, fs[index]) || TotalSpare(totalLimit, fs, inFlight) > 0
  }

  /** The admission test as written, over the wrapping spares and their wrapping sum. */
  predicate AdmitsAsWritten(totalLimit: nat, fs: seq<real>, inFlight: seq<nat>, index: nat)
    requires ValidFractions(fs) && |inFlight| == |fs| && index < |fs|
    requires forall k | 0 <= k < |inFlight| :: inFlight[k] < USIZE_MODULUS
  {
    inFlight[index] < FractionalLimit(totalLimit, fs[index]) || TotalSpareAsWritten(totalLimit, fs, inFlight) > 0
  }

  /** A partition is let in past its own limit only while some partition keeps more
      than its buffer unused, and then it is let in. */
  lemma AdmissionRule(totalLimit: nat, fs: seq<real>, inFlight: seq<nat>, index: nat)
    requires ValidFractions(fs) && |inFlight| == |fs| && index < |fs|
    requires inFlight[index] >= FractionalLimit(totalLimit, fs[index])
    ensures Admits(totalLimit, fs, inFlight, index) <==>
            exists k | 0 <= k < |fs| ::
              inFlight[k] + Buffer(FractionalLimit(totalLimit, fs[k])) < FractionalLimit(totalLimit, fs[k])
  {
    TotalSpareZero(totalLimit, fs, inFlight);
    if exists k | 0 <= k < |fs| ::
         inFlight[k] + Buffer(FractionalLimit(totalLimit, fs[k])) < FractionalLimit(totalLimit, fs[k]) {
      var k :| 0 <= k < |fs| &&
               inFlight[k] + Buffer(FractionalLimit(totalLimit, fs[k])) < FractionalLimit(totalLimit, fs[k]);
      assert Spare(totalLimit, fs[k], inFlight[k]) > 0;
    }
  }

  /** Partitions sharing a limit of 100 equally have limits of 50 and buffers of 5.
      Partition 1 lends partition 0 one permit at in flight 50 and 44, and then takes
      one of its own. At 51 and 45 nobody has capacity to lend and 4 permits are free,
      yet partition 0's spare wraps to 2^64 − 6 and the test as written admits it into
      partition 1's buffer. */
  lemma WrappedSpareAdmitsFullPartition()
    ensures Admits(100, [0.5, 0.5], [50, 44], 0) && Admits(100, [0.5, 0.5], [51, 44], 1)
    ensures SpareAsWritten(100, 0.5, 51) == USIZE_MODULUS - 6 && Spare(100, 0.5, 51) == 0
    ensures TotalSpareAsWritten(100, [0.5, 0.5], [51, 45]) > 0 && TotalSpare(100, [0.5, 0.5], [51, 45]) == 0
    ensures AdmitsAsWritten(100, [0.5, 0.5], [51, 45], 0) && !Admits(100, [0.5, 0.5], [51, 45], 0)
  {
    assert FractionalLimit(100, 0.5) == 50;
    assert Buffer(50) == 5;
    var fs := [0.5, 0.5];
    assert fs[..1] == [0.5] && [0.5][..0] == [];
    assert [50, 44][..1] == [50] && [50][..0] == [];
    assert [51, 44][..1] == [51] && [51][..0] == [];
    assert [51, 45][..1] == [51] && [51][..0] == [];
    assert TotalSpare(100, fs, [50, 44]) == 1;
    assert TotalSpare(100, fs, [51, 45]) == 0;
    assert TotalSpareAsWritten(100, fs[..1], [51]) == USIZE_MODULUS - 6;
  }

  /** The wrapping sum can also cancel out. At in flight 50 and 39 partition 1 lends
      partition 0 a permit. At 51 and 39 the spares as written are 2^64 − 6 and 6, and
      their sum wraps to 0. Partition 0 is then refused, although partition 1 still has
      6 to lend and the corrected rule admits it. */
  lemma WrappedTotalRefusesBorrower()
    ensures Admits(100, [0.5, 0.5], [50, 39], 0)
    ensures TotalSpareAsWritten(100, [0.5, 0.5], [51, 39]) == 0 && TotalSpare(100, [0.5, 0.5], [51, 39]) == 6
    ensures !AdmitsAsWritten(100, [0.5, 0.5], [51, 39], 0) && Admits(100, [0.5, 0.5], [51, 39], 0)
  {
    assert FractionalLimit(100, 0.5) == 50;
    assert Buffer(50) == 5;
    var fs := [0.5, 0.5];
    assert fs[..1] == [0.5] && [0.5][..0] == [];
    assert [50, 39][..1] == [50] && [50][..0] == [];
    assert [51, 39][..1] == [51] && [51][..0] == [];
    assert TotalSpare(100, fs, [50, 39]) == 6;
    assert TotalSpare(100, fs, [51, 39]) == 6;
    assert TotalSpareAsWritten(100, fs[..1], [51]) == USIZE_MODULUS - 6;
  }

  /** `iter().sum()` of the weights. */
  function Sum(ws: seq<real>): real {
    if ws == [] then 0.0 else Sum(ws[..|ws| - 1]) + ws[|ws| - 1]
  }

  predicate NonNegative(ws: seq<real>) {
    forall k | 0 <= k < |ws| :: ws[k] >= 0.0
  }

  predicate NonPositive(ws: seq<real>) {
    forall k | 0 <= k < |ws| :: ws[k] <= 0.0
  }

  function DivideAll(ws: seq<real>, t: real): (r: seq<real>)
    requires t != 0.0
    ensures |r| == |ws| && forall k | 0 <= k < |ws| :: r[k] == ws[k] / t
  {
    seq(|ws|, k requires 0 <= k < |ws| => ws[k] / t)
  }

  /** Every weight divided by the total. */
  function Normalised(ws: seq<real>): (r: seq<real>)
    requires Sum(ws) != 0.0
    ensures |r| == |ws|
  {
    DivideAll(ws, Sum(ws))
  }

  function Negated(ws: seq<real>): (r: seq<real>)
    ensures |r| == |ws| && forall k | 0 <= k < |ws| :: r[k] == -ws[k]
  {
    seq(|ws|, k requires 0 <= k < |ws| => -ws[k])
  }

  lemma {:induction false} SumNonNegative(ws: seq<real>)
    requires NonNegative(ws)
    ensures Sum(ws) >= 0.0
    decreases |ws|
  {
    if ws != [] {
      var n := |ws| - 1;
      assert NonNegative(ws[..n]) by {
        forall k | 0 <= k < n ensures ws[..n][k] >= 0.0 {
          assert ws[..n][k] == ws[k];
        }
      }
      SumNonNegative(ws[..n]);
    }
  }

  /** No single weight of non-negative weights exceeds the total. */
  lemma {:induction false} WeightAtMostSum(ws: seq<real>, k: nat)
    requires NonNegative(ws) && k < |ws|
    ensures ws[k] <= Sum(ws)
    decreases |ws|
  {
    var n := |ws| - 1;
    assert NonNegative(ws[..n]) by {
      forall j | 0 <= j < n ensures ws[..n][j] >= 0.0 {
        assert ws[..n][j] == ws[j];
      }
    }
    SumNonNegative(ws[..n]);
    if k < n {
      WeightAtMostSum(ws[..n], k);
      assert ws[..n][k] == ws[k];
    }
  }

  lemma {:induction false} SumNegated(ws: seq<real>)
    ensures Sum(Negated(ws)) == -Sum(ws)
    decreases |ws|
  {
    if ws != [] {
      var n := |ws| - 1;
      assert Negated(ws)[..n] == Negated(ws[..n]);
      SumNegated(ws[..n]);
    }
  }

  /** Negating every weight leaves the fractions as they were. */
  lemma NormalisedNegated(ws: seq<real>)
    requires Sum(ws) != 0.0
    ensures Sum(Negated(ws)) != 0.0 && Normalised(Negated(ws)) == Normalised(ws)
  {
    SumNegated(ws);
    var t := Sum(ws);
    forall k | 0 <= k < |ws| ensures Normalised(Negated(ws))[k] == Normalised(ws)[k] {
      NegatedRatio(ws[k], t);
    }
  }

  lemma NegatedRatio(w: real, t: real)
    requires t != 0.0
    ensures (-w) / (-t) == w / t
  {
    var q := w / t;
    assert q * t == w;
    assert q * (-t) == -w;
  }

  lemma {:induction false} SumDivided(ws: seq<real>, t: real)
    requires t != 0.0
    ensures Sum(DivideAll(ws, t)) == Sum(ws) / t
    decreases |ws|
  {
    if ws != [] {
      var n := |ws| - 1;
      assert DivideAll(ws, t)[..n] == DivideAll(ws[..n], t);
      SumDivided(ws[..n], t);
      assert Sum(ws[..n]) / t + ws[n] / t == (Sum(ws[..n]) + ws[n]) / t;
    }
  }

  /** A part `w` in `[0, t]` of a positive total `t` is a fraction `f` in `[0, 1]` of
      it, positive when the part is. */
  lemma PartOfTotal(w: real, t: real, f: real)
    requires 0.0 <= w <= t && t > 0.0 && f == w / t
    ensures 0.0 <= f <= 1.0 && f * t == w && (w > 0.0 ==> f > 0.0)
  {
    RatioCompare(w, t, 1.0);
    RatioCompare(w, t, 0.0);
  }

  /** One non-negative weight's fraction lies in `[0, 1]`, is in proportion to the
      weight, and is positive when the weight is. */
  lemma NormalisedAt(ws: seq<real>, k: nat)
    requires NonNegative(ws) && Sum(ws) > 0.0 && k < |ws|
    ensures 0.0 <= Normalised(ws)[k] <= 1.0 && Normalised(ws)[k] == ws[k] / Sum(ws)
    ensures ws[k] > 0.0 ==> Normalised(ws)[k] > 0.0
  {
    WeightAtMostSum(ws, k);
    PartOfTotal(ws[k], Sum(ws), Normalised(ws)[k]);
  }

  /** Non-negative weights with a positive total become fractions of the limit, each
      in `[0, 1]`, in the weights' ratios; a positive weight gets a positive share. */
  lemma NormalisedAreFractions(ws: seq<real>)
    requires NonNegative(ws) && Sum(ws) > 0.0
    ensures ValidFractions(Normalised(ws))
    ensures forall k | 0 <= k < |ws| :: Normalised(ws)[k] == ws[k] / Sum(ws)
    ensures forall k | 0 <= k < |ws| :: ws[k] > 0.0 ==> Normalised(ws)[k] > 0.0
  {
    forall k | 0 <= k < |ws|
      ensures 0.0 <= Normalised(ws)[k] <= 1.0 && Normalised(ws)[k] == ws[k] / Sum(ws)
      ensures ws[k] > 0.0 ==> Normalised(ws)[k] > 0.0
    {
      NormalisedAt(ws, k);
    }
  }

  /** Weights all of one sign, with a non-zero total, become fractions in `[0, 1]`. */
  lemma OneSignedAreFractions(ws: seq<real>)
    requires Sum(ws) != 0.0 && (NonNegative(ws) || NonPositive(ws))
    ensures ValidFractions(Normalised(ws))
  {
    if NonNegative(ws) {
      SumNonNegative(ws);
      NormalisedAreFractions(ws);
    } else {
      NormalisedNegated(ws);
      SumNegated(ws);
      assert NonNegative(Negated(ws));
      SumNonNegative(Negated(ws));
      NormalisedAreFractions(Negated(ws));
    }
  }

  /** The fractions sum to one. */
  lemma NormalisedSumToOne(ws: seq<real>)
    requires Sum(ws) != 0.0
    ensures Sum(Normalised(ws)) == 1.0
  {
    var t := Sum(ws);
    assert Normalised(ws) == DivideAll(ws, t);
    SumDivided(ws, t);
    assert t / t == 1.0;
  }

  /** Weights 2, 2 and 4 make shares of a quarter, a quarter and a half. */
  lemma TwoTwoFour()
    ensures Sum([2.0, 2.0, 4.0]) == 8.0 && Normalised([2.0, 2.0, 4.0]) == [0.25, 0.25, 0.5]
  {
    var ws := [2.0, 2.0, 4.0];
    assert ws[..2] == [2.0, 2.0] && ws[..2][..1] == [2.0] && ws[..2][..1][..0] == [];
    assert Sum([2.0]) == 2.0;
    assert Sum([2.0, 2.0]) == 4.0;
    assert Sum(ws) == 8.0;
  }

  /** A handle on one partition. */
  datatype PartitionedLimiter = PartitionedLimiter(index: nat, scheduler: Scheduler)

  /** The scheduler's state: the counters and the partition indices of the waiters,
      oldest first. */
  datatype Sched = Sched(acc: Accounts, waiters: seq<nat>)

  ghost predicate SchedValid(fs: seq<real>, st: Sched) {
    ValidFractions(fs) && |st.acc.partitions| == |fs| && WellFormed(st.acc)
    && forall k | 0 <= k < |st.waiters| :: st.waiters[k] < |fs|
  }

  /** `try_acquire` on partition `index`, where `permit` says whether the limiter had a
      permit to give: an admitted partition takes the token and is charged for it. */
  function TryAcquireStep(fs: seq<real>, st: Sched, index: nat, totalLimit: nat, permit: bool): (Sched, Option<Token>)
    requires SchedValid(fs, st) && index < |fs|
  {
    if Admits(totalLimit, fs, st.acc.partitions, index) && permit then
      var a := NewStep(st.acc);
      (st.(acc := ForPartitionStep(a, Unpartitioned, index)), Some(Tagged(Unpartitioned, index)))
    else (st, None)
  }

  lemma TryAcquireRule(fs: seq<real>, st: Sched, index: nat, totalLimit: nat, permit: bool)
    requires SchedValid(fs, st) && index < |fs| && Accounted(st.acc)
    ensures var (st', r) := TryAcquireStep(fs, st, index, totalLimit, permit);
            (r.None? <==> !permit || !Admits(totalLimit, fs, st.acc.partitions, index))
            && (r.None? ==> st' == st)
            && (r.Some? ==> r.value.partition == Some(index) && r.value in st'.acc.live
                            && st'.acc.inFlight == st.acc.inFlight + 1
                            && st'.acc.partitions == st.acc.partitions[index := st.acc.partitions[index] + 1])
            && Accounted(st'.acc) && st'.waiters == st.waiters
  {
    if Admits(totalLimit, fs, st.acc.partitions, index) && permit {
      NewKeepsAccounted(st.acc);
      ForPartitionAccounted(NewStep(st.acc), Unpartitioned, index);
    }
  }

  /** How the first half of `acquire_timeout` ends. */
  datatype Attempt = Acquired(token: Token) | Refused | Queued

  /** The first half of `acquire_timeout`: an admitted partition asks the limiter for a
      token; otherwise it joins the back of the waiter queue. */
  function AcquireStartStep(fs: seq<real>, st: Sched, index: nat, totalLimit: nat, permit: bool): (Sched, Attempt)
    requires SchedValid(fs, st) && index < |fs|
  {
    if Admits(totalLimit, fs, st.acc.partitions, index) then
      if permit then (st.(acc := NewStep(st.acc)), Acquired(Unpartitioned)) else (st, Refused)
    else (st.(waiters := st.waiters + [index]), Queued)
  }

  /** The second half of `acquire_timeout` as written: the token is charged to the
      partition, whether it came from the limiter or from `reuse_permit`, which has
      already charged it. */
  function AcquireFinishAsWritten(st: Sched, t: Token, index: nat): Sched
    requires t in st.acc.live && index < |st.acc.partitions|
  {
    st.(acc := ForPartitionStep(st.acc, t, index))
  }

  /** The second half of `acquire_timeout`, charging only a token not charged yet. */
  function AcquireFinishStep(st: Sched, t: Token, index: nat): Sched
    requires t in st.acc.live && index < |st.acc.partitions|
  {
    if t.partition.None? then st.(acc := ForPartitionStep(st.acc, t, index)) else st
  }

  lemma AcquireRule(fs: seq<real>, st: Sched, index: nat, totalLimit: nat, permit: bool)
    requires SchedValid(fs, st) && index < |fs| && Accounted(st.acc)
    ensures var (st', r) := AcquireStartStep(fs, st, index, totalLimit, permit);
            (r.Queued? <==> !Admits(totalLimit, fs, st.acc.partitions, index))
            && (r.Queued? ==> st'.waiters == st.waiters + [index] && st'.acc == st.acc)
            && (r.Acquired? ==> r.token in st'.acc.live && st'.waiters == st.waiters)
            && Accounted(st'.acc) && SchedValid(fs, st')
  {
    NewKeepsAccounted(st.acc);
  }

  /** Whatever token a partition receives, finishing keeps the counters right, and the
      token ends up charged to a partition. */
  lemma AcquireFinishKeepsAccounted(st: Sched, t: Token, index: nat)
    requires Accounted(st.acc) && t in st.acc.live && index < |st.acc.partitions|
    ensures Accounted(AcquireFinishStep(st, t, index).acc)
  {
    if t.partition.None? {
      ForPartitionAccounted(st.acc, t, index);
    }
  }

  /** `reuse_permit` with a permit in transit: the oldest waiter, if any, gets a token
      holding that permit, charged to the waiter's partition; `receiverAlive` says
      whether that waiter is still listening (it may have timed out), and if not the
      token is dropped again, which hands the permit to another `reuse_permit`. With no
      waiter the permit is released. */
  function ReuseStep(fs: seq<real>, st: Sched, receiverAlive: bool): (Sched, Option<Token>)
    requires SchedValid(fs, st) && st.acc.loose > 0
  {
    if st.waiters == [] then (st.(acc := DropInnerStep(st.acc)), None)
    else
      var a := NewFromInnerStep(st.acc);
      var i := st.waiters[0];
      var b := ForPartitionStep(a, Unpartitioned, i);
      var t := Tagged(Unpartitioned, i);
      if receiverAlive then (Sched(b, st.waiters[1..]), Some(t))
      else (Sched(DropStep(b, t), st.waiters[1..]), None)
  }

  /** Waiters are served oldest first, the limiter's count is untouched while the
      permit changes hands, and the counters stay right. */
  lemma {:induction false} ReuseRule(fs: seq<real>, st: Sched, receiverAlive: bool)
    requires SchedValid(fs, st) && st.acc.loose > 0 && Accounted(st.acc)
    ensures var (st', r) := ReuseStep(fs, st, receiverAlive);
            Accounted(st'.acc) && SchedValid(fs, st')
            && (st.waiters == [] ==> r.None? && st'.waiters == [] && st'.acc.inFlight + 1 == st.acc.inFlight)
            && (st.waiters != [] ==> st'.waiters == st.waiters[1..] && st'.acc.inFlight == st.acc.inFlight)
            && (st.waiters != [] && receiverAlive ==>
                  r.Some? && r.value.partition == Some(st.waiters[0]) && r.value in st'.acc.live)
  {
    if st.waiters != [] {
      var i := st.waiters[0];
      NewFromInnerKeepsAccounted(st.acc);
      var a := NewFromInnerStep(st.acc);
      ForPartitionAccounted(a, Unpartitioned, i);
      if !receiverAlive {
        DropKeepsAccounted(ForPartitionStep(a, Unpartitioned, i), Tagged(Unpartitioned, i));
      }
    }
  }

  /** The token of the trace below: one permit, charged to partition 0. */
  const Charged: Token := Tagged(Unpartitioned, 0)

  /** A single partition holding the whole limit. */
  const Whole: seq<real> := [1.0]

  /** At a limit of 1 a single partition has room as long as nothing is charged to it,
      and never lends. */
  lemma WholeLimitOfOne(inFlight: nat)
    ensures Admits(1, Whole, [inFlight], 0) <==> inFlight == 0
  {
    assert FractionalLimit(1, Whole[0]) == 1;
    assert Buffer(1) == 1;
    assert Whole[..0] == [] && [inFlight][..0] == [];
    assert TotalSpare(1, Whole, [inFlight]) == Spare(1, Whole[0], inFlight) == 0;
  }

  /** The waiter trace, first part: a caller takes the only permit and a second one
      queues; the first token is dropped and its permit goes to `reuse_permit`. */
  lemma WaiterTraceQueues()
    ensures TryAcquireStep(Whole, Sched(Empty(1), []), 0, 1, true)
            == (Sched(Accounts(1, [1], multiset{Charged}, 0), []), Some(Charged))
    ensures AcquireStartStep(Whole, Sched(Accounts(1, [1], multiset{Charged}, 0), []), 0, 1, true)
            == (Sched(Accounts(1, [1], multiset{Charged}, 0), [0]), Queued)
    ensures DropStep(Accounts(1, [1], multiset{Charged}, 0), Charged) == Accounts(1, [0], multiset{}, 1)
  {
    WholeLimitOfOne(0);
    WholeLimitOfOne(1);
    var s0 := Sched(Empty(1), []);
    assert s0.acc == Accounts(0, [0], multiset{}, 0);
    assert NewStep(s0.acc) == Accounts(1, [0], multiset{Unpartitioned}, 0);
    assert multiset{Unpartitioned} - multiset{Unpartitioned} + multiset{Charged} == multiset{Charged};
    assert ForPartitionStep(NewStep(s0.acc), Unpartitioned, 0) == Accounts(1, [1], multiset{Charged}, 0);
    assert multiset{Charged} - multiset{Charged} == multiset{};
    assert !Admits(1, Whole, [1], 0);
    assert [] + [0] == [0];
  }

  /** The waiter trace, second part: the permit is handed to the waiter as a token
      already charged to its partition. Finishing `acquire_timeout` as written charges
      it a second time; charging only uncharged tokens leaves the state as it is. */
  lemma WaiterTraceServes()
    ensures ReuseStep(Whole, Sched(Accounts(1, [0], multiset{}, 1), [0]), true)
            == (Sched(Accounts(1, [1], multiset{Charged}, 0), []), Some(Charged))
    ensures AcquireFinishAsWritten(Sched(Accounts(1, [1], multiset{Charged}, 0), []), Charged, 0)
            == Sched(Accounts(1, [2], multiset{Charged}, 0), [])
    ensures AcquireFinishStep(Sched(Accounts(1, [1], multiset{Charged}, 0), []), Charged, 0)
            == Sched(Accounts(1, [1], multiset{Charged}, 0), [])
    ensures !Accounted(Accounts(1, [2], multiset{Charged}, 0))
    ensures Accounted(Accounts(1, [1], multiset{Charged}, 0))
  {
    assert [0][1..] == [];
    assert NewFromInnerStep(Accounts(1, [0], multiset{}, 1)) == Accounts(1, [0], multiset{Unpartitioned}, 0);
    assert multiset{Unpartitioned} - multiset{Unpartitioned} + multiset{Charged} == multiset{Charged};
    assert ForPartitionStep(Accounts(1, [0], multiset{Unpartitioned}, 0), Unpartitioned, 0)
           == Accounts(1, [1], multiset{Charged}, 0);
    assert multiset{Charged} - multiset{Charged} + multiset{Charged} == multiset{Charged};
  }

  /** The waiter trace, last part: the waiter's token is dropped and, with nobody
      waiting, its permit released. Nothing is in flight, yet as written the partition
      counter stays at 1 and the partition refuses every later caller; charging only
      uncharged tokens brings everything back to zero. */
  lemma WaiterTraceEnds()
    ensures var bad := DropStep(Accounts(1, [2], multiset{Charged}, 0), Charged);
            bad == Accounts(1, [1], multiset{}, 1)
            && ReuseStep(Whole, Sched(bad, []), true) == (Sched(Accounts(0, [1], multiset{}, 0), []), None)
    ensures !Admits(1, Whole, [1], 0)
    ensures var good := DropStep(Accounts(1, [1], multiset{Charged}, 0), Charged);
            good == Accounts(1, [0], multiset{}, 1)
            && ReuseStep(Whole, Sched(good, []), true) == (Sched(Empty(1), []), None)
  {
    WholeLimitOfOne(1);
    assert Empty(1) == Accounts(0, [0], multiset{}, 0);
  }

  /** `reuse_permit` as the queueing side is written: a caller that queues keeps the
      waiters' write guard while it awaits its receiver, so `reuse_permit` can take the
      front waiter only once that caller's timeout has dropped guard and receiver
      together. By then the receiver is gone: the send fails and the token is dropped. */
  function ReuseAsWritten(fs: seq<real>, st: Sched): (r: (Sched, Option<Token>))
    requires SchedValid(fs, st) && st.acc.loose > 0
    ensures r.1.None? && r.0.waiters == (if st.waiters == [] then [] else st.waiters[1..])
  {
    ReuseStep(fs, st, false)
  }

  /** As written no queued caller is ever served, while with the guard released after
      queueing the oldest waiter gets a token charged to its partition. */
  lemma HeldGuardNeverServes(fs: seq<real>, st: Sched)
    requires SchedValid(fs, st) && st.acc.loose > 0 && Accounted(st.acc) && st.waiters != []
    ensures ReuseAsWritten(fs, st).1.None?
    ensures var r := ReuseStep(fs, st, true).1;
            r.Some? && r.value.partition == Some(st.waiters[0])
  {
    ReuseRule(fs, st, true);
  }

  /** The waiter trace as written: the queued caller times out, the permit it would
      have had is charged to its partition and dropped again, and with nobody left
      waiting it is released. The counters return to zero, so the double charge of
      `acquire_timeout` stays latent. */
  lemma WaiterTraceTimesOut()
    ensures var (s1, r1) := ReuseAsWritten(Whole, Sched(Accounts(1, [0], multiset{}, 1), [0]));
            r1.None? && s1 == Sched(Accounts(1, [0], multiset{}, 1), [])
            && ReuseAsWritten(Whole, s1) == (Sched(Empty(1), []), None)
  {
    assert [0][1..] == [];
    assert NewFromInnerStep(Accounts(1, [0], multiset{}, 1)) == Accounts(1, [0], multiset{Unpartitioned}, 0);
    assert multiset{Unpartitioned} - multiset{Unpartitioned} + multiset{Charged} == multiset{Charged};
    assert ForPartitionStep(Accounts(1, [0], multiset{Unpartitioned}, 0), Unpartitioned, 0)
           == Accounts(1, [1], multiset{Charged}, 0);
    assert multiset{Charged} - multiset{Charged} == multiset{};
    assert Empty(1) == Accounts(0, [0], multiset{}, 0);
  }

  /** The scheduler shared by the partitions of one limiter. */
  class Scheduler {
    const fractions: seq<real>
    const counters: Counters
    /** Partition indices of the waiters, oldest first. */
    var waiters: seq<nat>

    ghost function Current(): Sched
      reads this, counters
    {
      Sched(counters.Current(), waiters)
    }

    ghost predicate Valid()
      reads this, counters
    {
      SchedValid(fractions, Current())
    }

    constructor New(fractions: seq<real>)
      requires ValidFractions(fractions)
      ensures Valid() && this.fractions == fractions && fresh(counters)
      ensures Current() == Sched(Empty(|fractions|), [])
    {
      this.fractions := fractions;
      counters := new Counters.New(|fractions|);
      waiters := [];
    }

    /** `Scheduler::spare`. */
    function Spare(totalLimit: nat): nat
      reads this, counters
      requires ValidFractions(fractions) && |counters.partitions| == |fractions|
    {
      TotalSpare(totalLimit, fractions, counters.partitions)
    }

    /** `PartitionedLimiter::try_acquire`. */
    method TryAcquire(index: nat, totalLimit: nat, permit: bool) returns (r: Option<Token>)
      requires Valid() && index < |fractions|
      modifies counters
      ensures Valid() && (Current(), r) == TryAcquireStep(fractions, old(Current()), index, totalLimit, permit)
    {
      var inFlight := counters.partitions[index];
      if (inFlight < FractionalLimit(totalLimit, fractions[index]) || Spare(totalLimit) > 0) && permit {
        var t := counters.NewToken();
        t := counters.ForPartition(t, index);
        r := Some(t);
      } else {
        r := None;
      }
    }

    /** The first half of `PartitionedLimiter::acquire_timeout`. */
    method AcquireStart(index: nat, totalLimit: nat, permit: bool) returns (r: Attempt)
      requires Valid() && index < |fractions|
      modifies this`waiters, counters
      ensures Valid() && (Current(), r) == AcquireStartStep(fractions, old(Current()), index, totalLimit, permit)
    {
      var inFlight := counters.partitions[index];
      if inFlight < FractionalLimit(totalLimit, fractions[index]) || Spare(totalLimit) > 0 {
        if permit {
          var t := counters.NewToken();
          r := Acquired(t);
        } else {
          r := Refused;
        }
      } else {
        waiters := waiters + [index];
        r := Queued;
      }
    }

    /** The second half of `PartitionedLimiter::acquire_timeout`, once a token arrived. */
    method AcquireFinish(t: Token, index: nat) returns (t': Token)
      requires Valid() && t in counters.live && index < |fractions|
      modifies counters
      ensures Valid() && Current() == AcquireFinishStep(old(Current()), t, index)
      ensures t'.partition.Some? && t' in counters.live
    {
      if t.partition.None? {
        t' := counters.ForPartition(t, index);
      } else {
        t' := t;
      }
    }

    /** `Scheduler::reuse_permit`, for a permit in transit. */
    method ReusePermit(receiverAlive: bool) returns (r: Option<Token>)
      requires Valid() && counters.loose > 0
      modifies this`waiters, counters
      ensures Valid() && (Current(), r) == ReuseStep(fractions, old(Current()), receiverAlive)
    {
      if waiters == [] {
        counters.DropInner();
        r := None;
      } else {
        var i := waiters[0];
        waiters := waiters[1..];
        var t := counters.NewFromInner();
        t := counters.ForPartition(t, i);
        if receiverAlive {
          r := Some(t);
        } else {
          counters.Drop(t);
          r := None;
        }
      }
    }
  }

  /** `create_static_partitions`' first loop: each weight divided by their sum. */
  method NormaliseWeights(weights: seq<real>) returns (fractions: seq<real>)
    requires |weights| > 0 && Sum(weights) != 0.0
    ensures fractions == Normalised(weights)
  {
    var total := Sum(weights);
    fractions := [];
    for k := 0 to |weights|
      invariant fractions == Normalised(weights)[..k]
    {
      fractions := fractions + [weights[k] / total];
    }
  }

  /** `create_static_partitions`: one partition per weight, at the weight's position,
      sharing one scheduler with nothing in flight. */
  method CreateStaticPartitions(weights: seq<real>) returns (partitions: seq<PartitionedLimiter>)
    requires |weights| > 0 && Sum(weights) != 0.0 && (NonNegative(weights) || NonPositive(weights))
    ensures |partitions| == |weights|
    ensures forall k | 0 <= k < |partitions| :: partitions[k].index == k && partitions[k].scheduler == partitions[0].scheduler
    ensures partitions[0].scheduler.Valid() && partitions[0].scheduler.fractions == Normalised(weights)
    ensures partitions[0].scheduler.Current() == Sched(Empty(|weights|), [])
    ensures fresh(partitions[0].scheduler) && fresh(partitions[0].scheduler.counters)
  {
    var fractions := NormaliseWeights(weights);
    OneSignedAreFractions(weights);
    var scheduler := new Scheduler.New(fractions);
    partitions := [];
    for k := 0 to |fractions|
      invariant |partitions| == k
      invariant forall j | 0 <= j < k :: partitions[j] == PartitionedLimiter(j, scheduler)
    {
      partitions := partitions + [PartitionedLimiter(|partitions|, scheduler)];
    }
  }
}
