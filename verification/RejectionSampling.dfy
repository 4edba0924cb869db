/**
 * Block rejection sampling. A draft proposes tokens from its own law `q`, a uniform number per token
 * decides acceptance, and one bonus token is drawn from the residual (or, after a full block, from the
 * target). The main theorem says the emitted tokens follow the target's autoregressive law exactly.
 */
module RejectionSampling {
  import opened AcceptedPrefix
  import opened Distribution
  import opened RealArithmetic

  // ---------------------------------------------------------------- the code's computation

  function Positive(x: real): real {
    if x > 0.0 then x else 0.0
  }

  /** `clamp_min_(0)` of the target row minus the draft row. */
  function PositivePart(p: seq<real>, q: seq<real>): (r: seq<real>)
    requires |p| == |q|
    ensures |r| == |p|
  {
    if p == [] then [] else [Positive(p[0] - q[0])] + PositivePart(p[1..], q[1..])
  }

  /** The residual row, with the clamp of the divisor and the zero-total fallback. */
  function ResidualWeights(p: seq<real>, q: seq<real>, tiny: real): (r: seq<real>)
    requires |p| == |q| && tiny > 0.0
    ensures |r| == |p|
  {
    var r := PositivePart(p, q);
    var total := Sum(r);
    if total > 0.0 then Scale(r, Inverse(if total > tiny then total else tiny)) else p
  }

  /** The flags `rand * q < p`, one per drafted token. */
  function AcceptFlags(u: seq<real>, q: seq<real>, p: seq<real>): (r: seq<bool>)
    requires |u| == |q| == |p|
    ensures |r| == |u|
  {
    seq(|u|, i requires 0 <= i < |u| => Times(u[i], q[i]) < p[i])
  }

  // ---------------------------------------------------------------- the acceptance event

  /** The measure of the uniforms in [0,1) that accept. */
  function AcceptProbability(p: real, q: real): real {
    if p <= 0.0 then 0.0 else if p >= q then 1.0 else Times(p, Inverse(q))
  }

  /** A uniform accepts exactly when it lies below the acceptance probability. */
  lemma AcceptEvent(u: real, p: real, q: real)
    requires 0.0 <= u < 1.0 && p >= 0.0 && q >= 0.0
    ensures 0.0 <= AcceptProbability(p, q) <= 1.0
    ensures Times(u, q) < p <==> u < AcceptProbability(p, q)
    ensures Times(q, AcceptProbability(p, q)) == if p < q then p else q
  {
    hide Times, Inverse;
    Unit(q);
    Unit(u);
    if p == 0.0 {
      NonNegativeProduct(u, q);
    } else if p >= q {
      if q > 0.0 { StrictlyMonotone(u, 1.0, q); }
    } else {
      var a := Times(p, Inverse(q));
      InverseLaw(q);
      NonNegativeProduct(p, Inverse(q));
      CancelInverse(p, q);
      Commute(q, a);
      if a > 1.0 { StrictlyMonotone(1.0, a, q); }
      if u < a { StrictlyMonotone(u, a, q); } else if a < u { StrictlyMonotone(a, u, q); }
    }
  }

  datatype Interval = Interval(lo: real, hi: real) {
    ghost predicate Contains(u: real) { lo <= u < hi }
  }

  function Volume(box: seq<Interval>): real {
    if box == [] then 1.0 else Times(box[0].hi - box[0].lo, Volume(box[1..]))
  }

  /** The box of uniforms for which exactly `k` drafted tokens are accepted. */
  function CountBox(a: seq<real>, k: nat): (box: seq<Interval>)
    ensures |box| == |a|
  {
    seq(|a|, i requires 0 <= i < |a| =>
      if i < k then Interval(0.0, a[i]) else if i == k then Interval(a[i], 1.0) else Interval(0.0, 1.0))
  }

  /** The code's accepted count is `k` exactly on the box of that count. */
  lemma CountEvent(u: seq<real>, q: seq<real>, p: seq<real>, a: seq<real>, k: nat)
    requires |u| == |q| == |p| == |a| && k <= |u|
    requires forall i :: 0 <= i < |u| ==> 0.0 <= u[i] < 1.0 && p[i] >= 0.0 && q[i] >= 0.0
    requires forall i :: 0 <= i < |u| ==> a[i] == AcceptProbability(p[i], q[i])
    ensures AcceptedLength(AcceptFlags(u, q, p)) == k
       <==> (forall i :: 0 <= i < |u| ==> CountBox(a, k)[i].Contains(u[i]))
  {
    var flags := AcceptFlags(u, q, p);
    forall i | 0 <= i < |u| ensures flags[i] <==> u[i] < a[i] {
      AcceptEvent(u[i], p[i], q[i]);
    }
    LongestPrefixUnique(flags, k);
  }

  /** The law of the accepted count. */
  function CountLaw(a: seq<real>): (w: seq<real>)
    ensures |w| == |a| + 1
  {
    seq(|a| + 1, k requires 0 <= k <= |a| => Volume(CountBox(a, k)))
  }

  lemma {:induction false} UnitVolume(box: seq<Interval>)
    requires forall i :: 0 <= i < |box| ==> box[i] == Interval(0.0, 1.0)
    ensures Volume(box) == 1.0
  {
    hide Times;
    if box != [] {
      UnitVolume(box[1..]);
      Unit(1.0);
    }
  }

  /** Conditioning on the first drafted token. */
  lemma CountLawStep(a: seq<real>)
    requires a != []
    ensures CountLaw(a) == [1.0 - a[0]] + Scale(CountLaw(a[1..]), a[0])
  {
    hide Times;
    var r := [1.0 - a[0]] + Scale(CountLaw(a[1..]), a[0]);
    forall k | 0 <= k <= |a| ensures CountLaw(a)[k] == r[k] {
      var box := CountBox(a, k);
      if k == 0 {
        UnitVolume(box[1..]);
        Unit(1.0 - a[0]);
      } else {
        assert box[1..] == CountBox(a[1..], k - 1);
        Commute(a[0], Volume(box[1..]));
      }
    }
  }

  /** Expected outcome of one block: `out[k]` is the outcome after exactly `k` acceptances. */
  function Expected(a: seq<real>, out: seq<real>): real
    requires |out| == |a| + 1
  {
    Dot(CountLaw(a), out)
  }

  lemma ExpectedStep(a: seq<real>, out: seq<real>)
    requires |out| == |a| + 1 && a != []
    ensures Expected(a, out) == Times(a[0], Expected(a[1..], out[1..])) + Times(1.0 - a[0], out[0])
  {
    hide Times, CountLaw, Scale;
    CountLawStep(a);
    DotScale(CountLaw(a[1..]), a[0], out[1..]);
    Commute(a[0], Expected(a[1..], out[1..]));
    assert CountLaw(a)[1..] == Scale(CountLaw(a[1..]), a[0]);
  }

  lemma ExpectedEmpty(out: real)
    ensures Expected([], [out]) == out
  {
    hide Times;
    assert CountBox([], 0) == [];
    assert CountLaw([]) == [1.0];
    var w, v := [1.0], [out];
    assert w[1..] == [] && v[1..] == [];
    assert Dot(w, v) == Times(1.0, out) + Dot(w[1..], v[1..]);
    Unit(out);
  }

  /** The counts 0 to `|a|` exhaust the cube of uniforms. */
  lemma {:induction false} CountLawTotal(a: seq<real>)
    ensures Sum(CountLaw(a)) == 1.0
  {
    hide Times;
    if a == [] {
      assert CountBox(a, 0) == [];
      assert CountLaw(a) == [1.0];
    } else {
      CountLawTotal(a[1..]);
      CountLawStep(a);
      SumScale(CountLaw(a[1..]), a[0]);
      Unit(a[0]);
      assert CountLaw(a)[1..] == Scale(CountLaw(a[1..]), a[0]);
    }
  }

  // ---------------------------------------------------------------- one position

  /** The part of the draft law that is accepted. */
  function Overlap(p: seq<real>, q: seq<real>): (r: seq<real>)
    requires |p| == |q|
    ensures |r| == |p|
  {
    if p == [] then []
    else [if p[0] < q[0] then p[0] else q[0]] + Overlap(p[1..], q[1..])
  }

  /** The target law splits into the accepted part and the clamped residual. */
  lemma {:induction false} OverlapAndResidual(p: seq<real>, q: seq<real>, v: seq<real>)
    requires |p| == |q| == |v|
    ensures Sum(p) == Sum(Overlap(p, q)) + Sum(PositivePart(p, q))
    ensures Dot(p, v) == Dot(Overlap(p, q), v) + Dot(PositivePart(p, q), v)
    ensures NonNegative(PositivePart(p, q))
  {
    hide Times;
    if p != [] {
      OverlapAndResidual(p[1..], q[1..], v[1..]);
      AddLeft(Overlap(p, q)[0], PositivePart(p, q)[0], v[0]);
    }
  }

  /** `a[t]` accepts token `t`; `o[t]` is the accepted mass. */
  lemma {:induction false} AcceptanceAverage(q: seq<real>, a: seq<real>, o: seq<real>, v: seq<real>, z: seq<real>, rest: real)
    requires |q| == |a| == |o| == |v| == |z|
    requires forall t :: 0 <= t < |z| ==> Times(q[t], a[t]) == o[t]
    requires forall t :: 0 <= t < |z| ==> z[t] == Times(a[t], v[t]) + Times(1.0 - a[t], rest)
    ensures Dot(q, z) == Dot(o, v) + Times(Sum(q) - Sum(o), rest)
  {
    hide Times;
    if q == [] {
      Unit(rest);
    } else {
      AcceptanceAverage(q[1..], a[1..], o[1..], v[1..], z[1..], rest);
      AddRight(q[0], Times(a[0], v[0]), Times(1.0 - a[0], rest));
      Associate(q[0], a[0], v[0]);
      Associate(q[0], 1.0 - a[0], rest);
      Commute(q[0], 1.0 - a[0]);
      SubtractLeft(1.0, a[0], q[0]);
      Unit(q[0]);
      Commute(q[0], a[0]);
      AddLeft(q[0] - o[0], Sum(q[1..]) - Sum(o[1..]), rest);
    }
  }

  function AcceptProbabilities(p: seq<real>, q: seq<real>): (a: seq<real>)
    requires |p| == |q|
    ensures |a| == |p|
  {
    seq(|p|, t requires 0 <= t < |p| => AcceptProbability(p[t], q[t]))
  }

  lemma {:induction false} OverlapAt(p: seq<real>, q: seq<real>, t: nat)
    requires |p| == |q| && t < |p| && p[t] >= 0.0 && q[t] >= 0.0
    ensures Times(q[t], AcceptProbability(p[t], q[t])) == Overlap(p, q)[t]
  {
    hide Times, AcceptProbability;
    AcceptEvent(0.0, p[t], q[t]);
    if t > 0 { OverlapAt(p[1..], q[1..], t - 1); }
  }

  /** The law the bonus token is drawn from after a rejection. */
  function BonusLaw(p: seq<real>, q: seq<real>, tiny: real): (r: seq<real>)
    requires IsLaw(p, |p|) && |q| == |p| && tiny > 0.0
    ensures |r| == |p|
  {
    ResidualSamplable(p, q, tiny);
    MultinomialLaw(ResidualWeights(p, q, tiny))
  }

  /** The residual row can always be sampled, and the divisor's clamp never changes its law. */
  lemma ResidualSamplable(p: seq<real>, q: seq<real>, tiny: real)
    requires IsLaw(p, |p|) && |q| == |p| && tiny > 0.0
    ensures Sum(ResidualWeights(p, q, tiny)) > 0.0
    ensures Sum(PositivePart(p, q)) > 0.0 ==>
      MultinomialLaw(ResidualWeights(p, q, tiny)) == MultinomialLaw(PositivePart(p, q))
  {
    hide Times, Inverse, Scale, Sum, MultinomialLaw;
    var total := Sum(PositivePart(p, q));
    if total > 0.0 {
      var d := if total > tiny then total else tiny;
      InverseLaw(d);
      MultinomialScaleInvariant(PositivePart(p, q), Inverse(d));
    }
  }

  /** Without residual mass no drawn token is rejected, so the fallback row has probability zero. */
  lemma FallbackUnreachable(p: seq<real>, q: seq<real>)
    requires IsLaw(p, |p|) && IsLaw(q, |p|) && Sum(PositivePart(p, q)) == 0.0
    ensures forall t :: 0 <= t < |p| ==> Times(q[t], 1.0 - AcceptProbability(p[t], q[t])) == 0.0
  {
    hide Times, AcceptProbability;
    OverlapAndResidual(p, q, p);
    OverlapBelow(p, q);
    forall t | 0 <= t < |p| ensures Times(q[t], 1.0 - AcceptProbability(p[t], q[t])) == 0.0 {
      OverlapAt(p, q, t);
      Commute(q[t], 1.0 - AcceptProbability(p[t], q[t]));
      Commute(q[t], AcceptProbability(p[t], q[t]));
      SubtractLeft(1.0, AcceptProbability(p[t], q[t]), q[t]);
      Unit(q[t]);
    }
  }

  lemma {:induction false} OverlapBelow(p: seq<real>, q: seq<real>)
    requires |p| == |q|
    ensures Sum(Overlap(p, q)) <= Sum(q)
    ensures Sum(Overlap(p, q)) == Sum(q) ==> forall t :: 0 <= t < |p| ==> Overlap(p, q)[t] == q[t]
  {
    if p != [] { OverlapBelow(p[1..], q[1..]); }
  }

  /** The rejected mass times the residual average is the missing part of the target average. */
  lemma RejectedAverage(p: seq<real>, q: seq<real>, v: seq<real>, tiny: real)
    requires IsLaw(p, |v|) && |q| == |v| && tiny > 0.0
    ensures Times(Sum(PositivePart(p, q)), Dot(BonusLaw(p, q, tiny), v)) == Dot(PositivePart(p, q), v)
  {
    hide Times, Dot, Sum, MultinomialLaw, PositivePart, ResidualWeights;
    OverlapAndResidual(p, q, v);
    SumNonNegative(PositivePart(p, q));
    if Sum(PositivePart(p, q)) > 0.0 {
      MultinomialAverage(PositivePart(p, q), v);
      ResidualSamplable(p, q, tiny);
    } else {
      DotZero(PositivePart(p, q), v);
      Unit(Dot(BonusLaw(p, q, tiny), v));
    }
  }

  /** One drafted token, accepted or replaced, has exactly the target's law. */
  lemma OnePosition(p: seq<real>, q: seq<real>, v: seq<real>, z: seq<real>, tiny: real)
    requires IsLaw(p, |v|) && IsLaw(q, |v|) && |z| == |v| && tiny > 0.0
    requires forall t :: 0 <= t < |z| ==>
      z[t] == Times(AcceptProbability(p[t], q[t]), v[t])
              + Times(1.0 - AcceptProbability(p[t], q[t]), Dot(BonusLaw(p, q, tiny), v))
    ensures Dot(q, z) == Dot(p, v)
  {
    hide Times, Dot, Sum, AcceptProbability, Overlap, PositivePart, BonusLaw;
    var a := AcceptProbabilities(p, q);
    forall t | 0 <= t < |z| ensures Times(q[t], a[t]) == Overlap(p, q)[t] {
      OverlapAt(p, q, t);
    }
    AcceptanceAverage(q, a, Overlap(p, q), v, z, Dot(BonusLaw(p, q, tiny), v));
    OverlapAndResidual(p, q, v);
    RejectedAverage(p, q, v, tiny);
  }
}
