/** Concurrency tokens and the in-flight counters they keep: one counter shared with the
    limiter, counting held semaphore permits, and one counter per partition, counting the
    tokens that partition holds. Each atomic operation is one sequential step. */
module Tokens {
  import opened Base

  /** A held semaphore permit, tied to the limiter's in-flight counter. */
  datatype Inner = Inner

  /** A token: its permit (taken out only while it is dropped) and, once assigned, the
      index of the partition whose counter it is charged to. */
  datatype Token = Token(inner: Option<Inner>, partition: Option<nat>)

  /** The token `Token::new` and `Token::new_from_inner` return. */
  const Unpartitioned: Token := Token(Some(Inner), None)

  /** `t` charged to partition `i`. */
  function Tagged(t: Token, i: nat): Token {
    t.(partition := Some(i))
  }

  /** `AtomicUsize::fetch_sub(1)`, which wraps around below zero. */
  function FetchSub(x: nat): (r: nat)
    ensures x > 0 ==> r + 1 == x
    ensures x == 0 ==> r == USIZE_MODULUS - 1
  {
    if x == 0 then USIZE_MODULUS - 1 else x - 1
  }

  /** The counters together with what they should count: the live tokens, and the
      permits handed to `reuse_permit` that no token holds yet. */
  datatype Accounts = Accounts(inFlight: nat, partitions: seq<nat>, live: multiset<Token>, loose: nat)

  /** Every live token holds a permit and names an existing partition. */
  predicate WellFormed(a: Accounts) {
    forall t | t in a.live :: t.inner.Some? && (t.partition.Some? ==> t.partition.value < |a.partitions|)
  }

  /** The counters are right: the shared counter counts every held permit, and each
      partition counter counts the live tokens charged to that partition. */
  predicate Accounted(a: Accounts) {
    WellFormed(a)
    && a.inFlight == |a.live| + a.loose
    && forall i | 0 <= i < |a.partitions| :: a.partitions[i] == a.live[Tagged(Unpartitioned, i)]
  }

  /** A limiter with `n` partitions and nothing in flight. */
  function Empty(n: nat): (a: Accounts)
    ensures Accounted(a) && |a.partitions| == n
  {
    Accounts(0, seq(n, _ => 0), multiset{}, 0)
  }

  /** `Token::new`: takes a fresh permit and increments the shared counter. */
  function NewStep(a: Accounts): Accounts {
    a.(inFlight := a.inFlight + 1, live := a.live + multiset{Unpartitioned})
  }

  /** `Token::new_from_inner`: wraps a permit in transit; no counter moves. */
  function NewFromInnerStep(a: Accounts): Accounts
    requires a.loose > 0
  {
    a.(loose := a.loose - 1, live := a.live + multiset{Unpartitioned})
  }

  /** `Token::for_partition`: increments partition `i`'s counter and charges the token
      to `i`, overwriting any partition it was charged to before. */
  function ForPartitionStep(a: Accounts, t: Token, i: nat): Accounts
    requires t in a.live && i < |a.partitions|
  {
    a.(partitions := a.partitions[i := a.partitions[i] + 1],
       live := a.live - multiset{t} + multiset{Tagged(t, i)})
  }

  /** `Drop for Token`: a partitioned token decrements its partition's counter and hands
      its permit on to `reuse_permit`; an unpartitioned one drops its permit, which
      decrements the shared counter. */
  function DropStep(a: Accounts, t: Token): Accounts
    requires WellFormed(a) && t in a.live
  {
    match t.partition
    case Some(p) =>
      a.(partitions := a.partitions[p := FetchSub(a.partitions[p])],
         live := a.live - multiset{t}, loose := a.loose + 1)
    case None =>
      a.(inFlight := FetchSub(a.inFlight), live := a.live - multiset{t})
  }

  /** `Drop for TokenInner`: a permit in transit is released. */
  function DropInnerStep(a: Accounts): Accounts
    requires a.loose > 0
  {
    a.(inFlight := FetchSub(a.inFlight), loose := a.loose - 1)
  }

  lemma NewKeepsAccounted(a: Accounts)
    requires Accounted(a)
    ensures Accounted(NewStep(a)) && NewStep(a).inFlight == a.inFlight + 1
    ensures NewStep(a).partitions == a.partitions
  {
    var r := NewStep(a);
    forall i | 0 <= i < |r.partitions|
      ensures r.partitions[i] == r.live[Tagged(Unpartitioned, i)]
    {
      assert Tagged(Unpartitioned, i) != Unpartitioned;
    }
  }

  lemma NewFromInnerKeepsAccounted(a: Accounts)
    requires Accounted(a) && a.loose > 0
    ensures Accounted(NewFromInnerStep(a))
    ensures NewFromInnerStep(a).inFlight == a.inFlight && NewFromInnerStep(a).partitions == a.partitions
  {
    var r := NewFromInnerStep(a);
    forall i | 0 <= i < |r.partitions|
      ensures r.partitions[i] == r.live[Tagged(Unpartitioned, i)]
    {
      assert Tagged(Unpartitioned, i) != Unpartitioned;
    }
  }

  /** Charging a token to a partition keeps the counters right exactly when the token
      was not charged to any partition before: re-charging a token counts it twice in
      its new partition's counter, or leaves it counted in its old one. */
  lemma {:induction false} ForPartitionAccounted(a: Accounts, t: Token, i: nat)
    requires Accounted(a) && t in a.live && i < |a.partitions|
    ensures Accounted(ForPartitionStep(a, t, i)) <==> t.partition.None?
  {
    var r := ForPartitionStep(a, t, i);
    var ti := Tagged(t, i);
    assert t.inner.Some? && t.inner.value.Inner?;
    if t.partition.None? {
      assert t == Unpartitioned && ti == Tagged(Unpartitioned, i);
      forall j | 0 <= j < |r.partitions|
        ensures r.partitions[j] == r.live[Tagged(Unpartitioned, j)]
      {
        assert t != Tagged(Unpartitioned, j);
      }
    } else if t.partition.value == i {
      assert t == ti == Tagged(Unpartitioned, i);
      assert r.live[ti] == a.live[ti];
      assert r.partitions[i] == a.partitions[i] + 1;
    } else {
      var j := t.partition.value;
      assert t == Tagged(Unpartitioned, j) && ti != t;
      assert r.live[t] == a.live[t] - 1;
      assert r.partitions[j] == a.partitions[j];
    }
  }

  /** Dropping a token keeps the counters right; a partitioned token keeps its permit
      counted in the shared counter, in transit to `reuse_permit`. */
  lemma {:induction false} DropKeepsAccounted(a: Accounts, t: Token)
    requires Accounted(a) && t in a.live
    ensures Accounted(DropStep(a, t))
    ensures t.partition.Some? ==> DropStep(a, t).inFlight == a.inFlight && DropStep(a, t).loose == a.loose + 1
    ensures t.partition.None? ==> DropStep(a, t).inFlight + 1 == a.inFlight
  {
    var r := DropStep(a, t);
    assert t.inner.Some? && t.inner.value.Inner?;
    match t.partition
    case Some(p) =>
      assert t == Tagged(Unpartitioned, p);
      assert a.partitions[p] > 0;
      forall j | 0 <= j < |r.partitions|
        ensures r.partitions[j] == r.live[Tagged(Unpartitioned, j)]
      {
        if j != p {
          assert t != Tagged(Unpartitioned, j);
        }
      }
    case None =>
      assert t == Unpartitioned && a.inFlight > 0;
      forall j | 0 <= j < |r.partitions|
        ensures r.partitions[j] == r.live[Tagged(Unpartitioned, j)]
      {
        assert t != Tagged(Unpartitioned, j);
      }
  }

  lemma DropInnerKeepsAccounted(a: Accounts)
    requires Accounted(a) && a.loose > 0
    ensures Accounted(DropInnerStep(a)) && DropInnerStep(a).inFlight + 1 == a.inFlight
  {
  }

  /** The in-flight counters behind a limiter and its partitions. */
  class Counters {
    /** The limiter's in-flight counter. */
    var inFlight: nat
    /** The partitions' in-flight counters. */
    var partitions: seq<nat>
    /** The tokens that exist, and the permits in transit between tokens. */
    ghost var live: multiset<Token>
    ghost var loose: nat

    ghost function Current(): Accounts
      reads this
    {
      Accounts(inFlight, partitions, live, loose)
    }

    constructor New(n: nat)
      ensures Current() == Empty(n)
    {
      inFlight := 0;
      partitions := seq(n, _ => 0);
      live := multiset{};
      loose := 0;
    }

    /** `Token::new`. */
    method NewToken() returns (t: Token)
      modifies this
      ensures Current() == NewStep(old(Current())) && t == Unpartitioned && t in live
    {
      inFlight := inFlight + 1;
      t := Unpartitioned;
      live := live + multiset{t};
    }

    /** `Token::new_from_inner`. */
    method NewFromInner() returns (t: Token)
      requires loose > 0
      modifies this
      ensures Current() == NewFromInnerStep(old(Current())) && t == Unpartitioned && t in live
    {
      t := Unpartitioned;
      loose := loose - 1;
      live := live + multiset{t};
    }

    /** `Token::for_partition`. */
    method ForPartition(t: Token, i: nat) returns (t': Token)
      requires t in live && i < |partitions|
      modifies this
      ensures Current() == ForPartitionStep(old(Current()), t, i) && t' == Tagged(t, i) && t' in live
    {
      partitions := partitions[i := partitions[i] + 1];
      t' := Tagged(t, i);
      live := live - multiset{t} + multiset{t'};
    }

    /** `Drop for Token`; a partitioned token's permit is left in transit for the
        scheduler's `reuse_permit`. */
    method Drop(t: Token)
      requires WellFormed(Current()) && t in live
      modifies this
      ensures Current() == DropStep(old(Current()), t)
    {
      live := live - multiset{t};
      match t.partition
      case Some(p) =>
        partitions := partitions[p := FetchSub(partitions[p])];
        loose := loose + 1;
      case None =>
        inFlight := FetchSub(inFlight);
    }

    /** `Drop for TokenInner`. */
    method DropInner()
      requires loose > 0
      modifies this
      ensures Current() == DropInnerStep(old(Current()))
    {
      inFlight := FetchSub(inFlight);
      loose := loose - 1;
    }
  }
}
