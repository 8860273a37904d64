/** A fixed concurrency limit. */
module Fixed {
  import opened Base

  datatype Fixed = Fixed(limit: nat)

  /** `Fixed::new`, which refuses a limit of zero. */
  function New(limit: nat): (f: Fixed)
    requires limit > 0
    ensures f.limit == limit && Limit(f) > 0
  {
    Fixed(limit)
  }

  function Limit(f: Fixed): nat {
    f.limit
  }

  /** Samples are ignored: the limit reported back is always the fixed one. */
  function Update(f: Fixed, s: Sample): (r: nat)
  {
    f.limit
  }

  /** Whatever samples arrive, the reported limit is the one given at construction. */
  lemma UpdateIgnoresSamples(limit: nat, s: Sample, t: Sample)
    requires limit > 0
    ensures Update(New(limit), s) == Update(New(limit), t) == Limit(New(limit)) == limit
  {
  }
}
