/** The limit algorithms behind one interface: read the current limit, or update it
    with a sample and read the new limit. */
module Limits {
  import opened Base
  import Aimd
  import Vegas
  import Gradient
  import MovingAvg
  import Fixed

  /** One algorithm object. */
  datatype Algorithm =
    | AimdLimit(aimd: Aimd.Aimd)
    | VegasLimit(vegas: Vegas.Vegas)
    | GradientLimit(gradient: Gradient.Gradient)
    | FixedLimit(fixed: Fixed.Fixed)

  /** The state of an algorithm, as a value. */
  datatype Snapshot =
    | AimdSnapshot(aimdConfig: Aimd.Config, aimdLimit: nat)
    | VegasSnapshot(vegasConfig: Vegas.Config, vegasState: Vegas.State)
    | GradientSnapshot(gradientConfig: Gradient.Config, gradientState: Gradient.State)
    | FixedSnapshot(fixedLimit: Fixed.Fixed)

  ghost function Repr(alg: Algorithm): set<object> {
    match alg
    case AimdLimit(a) => {a}
    case VegasLimit(v) => {v}
    case GradientLimit(g) => {g, g.longWindow}
    case FixedLimit(_) => {}
  }

  ghost predicate Valid(alg: Algorithm)
    reads Repr(alg)
  {
    match alg
    case AimdLimit(a) => a.Valid()
    case VegasLimit(v) => v.Valid()
    case GradientLimit(g) => g.Valid()
    case FixedLimit(f) => f.limit > 0
  }

  function Snap(alg: Algorithm): Snapshot
    reads Repr(alg)
  {
    match alg
    case AimdLimit(a) => AimdSnapshot(a.config, a.limit)
    case VegasLimit(v) => VegasSnapshot(v.config, v.Current())
    case GradientLimit(g) => GradientSnapshot(g.config, g.Current())
    case FixedLimit(f) => FixedSnapshot(f)
  }

  predicate ValidSnapshot(sn: Snapshot) {
    match sn
    case AimdSnapshot(c, l) => Aimd.ValidConfig(c) && l > 0
    case VegasSnapshot(c, st) => Vegas.ValidConfig(c) && st.limit >= 1
    case GradientSnapshot(c, st) => Gradient.ValidConfig(c) && Gradient.ValidState(c, st)
    case FixedSnapshot(f) => f.limit > 0
  }

  function LimitOf(sn: Snapshot): nat {
    match sn
    case AimdSnapshot(_, l) => l
    case VegasSnapshot(_, st) => st.limit
    case GradientSnapshot(_, st) => st.limit
    case FixedSnapshot(f) => Fixed.Limit(f)
  }

  /** One update of whichever algorithm it is. */
  function Step(sn: Snapshot, s: Sample): (r: Snapshot)
    requires ValidSnapshot(sn)
    ensures ValidSnapshot(r)
  {
    match sn
    case AimdSnapshot(c, l) => AimdSnapshot(c, Aimd.Next(c, l, s))
    case VegasSnapshot(c, st) => VegasSnapshot(c, Vegas.Next(c, st, s))
    case GradientSnapshot(c, st) => GradientSnapshot(c, Gradient.Next(c, st, s))
    case FixedSnapshot(f) => sn
  }

  /** Every algorithm keeps a positive limit, so a limiter is never wedged at zero. */
  lemma StepKeepsPositiveLimit(sn: Snapshot, s: Sample)
    requires ValidSnapshot(sn)
    ensures LimitOf(sn) > 0 && LimitOf(Step(sn, s)) > 0
  {
  }

  /** Only the configuration and the running state change, never the kind. */
  lemma StepKeepsKind(sn: Snapshot, s: Sample)
    requires ValidSnapshot(sn)
    ensures Step(sn, s).AimdSnapshot? == sn.AimdSnapshot? && Step(sn, s).VegasSnapshot? == sn.VegasSnapshot?
    ensures Step(sn, s).GradientSnapshot? == sn.GradientSnapshot? && Step(sn, s).FixedSnapshot? == sn.FixedSnapshot?
  {
  }

  lemma ValidSnap(alg: Algorithm)
    requires Valid(alg)
    ensures ValidSnapshot(Snap(alg))
  {
  }

  /** The limit reported to the limiter is the one in the algorithm's state. */
  function Limit(alg: Algorithm): (r: nat)
    reads Repr(alg)
    ensures r == LimitOf(Snap(alg))
  {
    match alg
    case AimdLimit(a) => a.Limit()
    case VegasLimit(v) => v.Limit()
    case GradientLimit(g) => g.Limit()
    case FixedLimit(f) => Fixed.Limit(f)
  }

  method Update(alg: Algorithm, s: Sample) returns (r: nat)
    requires Valid(alg)
    modifies Repr(alg)
    ensures Valid(alg)
    ensures Snap(alg) == Step(old(Snap(alg)), s) && r == LimitOf(Snap(alg)) == Limit(alg)
  {
    match alg
    case AimdLimit(a) =>
      r := a.Update(s);
    case VegasLimit(v) =>
      r := v.Update(s);
    case GradientLimit(g) =>
      r := g.Update(s);
    case FixedLimit(f) =>
      r := Fixed.Update(f, s);
  }
}
