/** The sparse residual of the MLX version, which overwrites the candidates' entries instead of accumulating into them. */
module OverwriteResidual {
  import opened AcceptedPrefix
  import opened Distribution
  import opened RealArithmetic
  import opened RejectionSampling
  import opened SparseBlock
  import opened SpeculativeBlock

  /** The MLX residual: overwrite each candidate's entry by its target mass minus its draft mass. */
  function ScatterPut(row: seq<real>, p: seq<real>, ids: seq<Token>, w: seq<real>): (r: seq<real>)
    requires |ids| == |w| && InVocabulary(ids, |row|) && |p| == |row|
    ensures |r| == |row|
    decreases |ids|
  {
    if ids == [] then row
    else ScatterPut(row[ids[0] := p[ids[0]] - w[0]], p, ids[1..], w[1..])
  }

  /** The weight of the last occurrence of a candidate. */
  function LastWeight(ids: seq<Token>, w: seq<real>, t: Token): real
    requires |ids| == |w| && t in ids
  {
    if t in ids[1..] then LastWeight(ids[1..], w[1..], t) else w[0]
  }

  /** The weight of its earlier occurrences together. */
  function EarlierMass(ids: seq<Token>, w: seq<real>, t: Token): real
    requires |ids| == |w| && t in ids
  {
    if t in ids[1..] then (if ids[0] == t then w[0] else 0.0) + EarlierMass(ids[1..], w[1..], t) else 0.0
  }

  lemma {:induction false} MassSplit(ids: seq<Token>, w: seq<real>, t: Token)
    requires |ids| == |w| && t in ids
    ensures MaskedMass(ids, w, t) == EarlierMass(ids, w, t) + LastWeight(ids, w, t)
  {
    if t in ids[1..] {
      MassSplit(ids[1..], w[1..], t);
    } else {
      AbsentMass(ids[1..], w[1..], t);
    }
  }

  lemma {:induction false} DistinctHasNoEarlier(ids: seq<Token>, w: seq<real>, t: Token)
    requires |ids| == |w| && t in ids
    requires forall i, j :: 0 <= i < j < |ids| ==> ids[i] != ids[j]
    ensures EarlierMass(ids, w, t) == 0.0
  {
    if t in ids[1..] { DistinctHasNoEarlier(ids[1..], w[1..], t); }
  }

  lemma {:induction false} ScatterPutAt(row: seq<real>, p: seq<real>, ids: seq<Token>, w: seq<real>, t: Token)
    requires |ids| == |w| && InVocabulary(ids, |row|) && |p| == |row| && t < |row|
    ensures ScatterPut(row, p, ids, w)[t] == if t in ids then p[t] - LastWeight(ids, w, t) else row[t]
    decreases |ids|
  {
    if ids != [] { ScatterPutAt(row[ids[0] := p[ids[0]] - w[0]], p, ids[1..], w[1..], t); }
  }

  // ---------------------------------------------------------------- the clamped row

  /** The clamped residual before normalisation. */
  function OverwrittenPart(p: seq<real>, s: Sparse): (r: seq<real>)
    requires |s.ids| == |s.w| && InVocabulary(s.ids, |p|)
    ensures |r| == |p|
  {
    var d := ScatterPut(p, p, s.ids, s.w);
    seq(|d|, t requires 0 <= t < |d| => Positive(d[t]))
  }

  /** No candidate loses anything: it has no weight but its last one, or that one alone covers its target mass. */
  predicate LosesNothing(p: seq<real>, s: Sparse)
    requires |s.ids| == |s.w| && InVocabulary(s.ids, |p|)
  {
    forall t | t in s.ids :: EarlierMass(s.ids, s.w, t) == 0.0 || p[t] <= LastWeight(s.ids, s.w, t)
  }

  lemma {:induction false} EarlierNonNegative(ids: seq<Token>, w: seq<real>, t: Token)
    requires |ids| == |w| && t in ids && NonNegative(w)
    ensures EarlierMass(ids, w, t) >= 0.0
  {
    if t in ids[1..] { EarlierNonNegative(ids[1..], w[1..], t); }
  }

  /** One entry of both rows; the overwriting one is never smaller. */
  lemma PartsAt(p: seq<real>, s: Sparse, t: Token)
    requires |s.ids| == |s.w| && InVocabulary(s.ids, |p|) && NonNegative(s.w) && t < |p|
    ensures OverwrittenPart(p, s)[t] >= SparsePositivePart(p, s)[t] >= 0.0
    ensures OverwrittenPart(p, s)[t] == SparsePositivePart(p, s)[t]
      <==> (t in s.ids ==> EarlierMass(s.ids, s.w, t) == 0.0 || p[t] <= LastWeight(s.ids, s.w, t))
    ensures t !in s.ids ==> OverwrittenPart(p, s)[t] == Positive(p[t])
  {
    ScatterPutAt(p, p, s.ids, s.w, t);
    ScatterAddAt(p, s.ids, s.w, -1.0, t);
    if t in s.ids {
      MassSplit(s.ids, s.w, t);
      EarlierNonNegative(s.ids, s.w, t);
    } else {
      AbsentMass(s.ids, s.w, t);
    }
  }

  /** The clamped rows agree exactly when no candidate loses anything, so always for distinct candidates. */
  lemma OverwriteIsAccumulate(p: seq<real>, s: Sparse)
    requires |s.ids| == |s.w| && InVocabulary(s.ids, |p|) && NonNegative(s.w)
    ensures OverwrittenPart(p, s) == SparsePositivePart(p, s) <==> LosesNothing(p, s)
    ensures (forall i, j :: 0 <= i < j < |s.ids| ==> s.ids[i] != s.ids[j]) ==> LosesNothing(p, s)
  {
    forall t: Token | t < |p|
      ensures OverwrittenPart(p, s)[t] == SparsePositivePart(p, s)[t]
        <==> (t in s.ids ==> EarlierMass(s.ids, s.w, t) == 0.0 || p[t] <= LastWeight(s.ids, s.w, t))
    {
      PartsAt(p, s, t);
    }
    if forall i, j :: 0 <= i < j < |s.ids| ==> s.ids[i] != s.ids[j] {
      forall t | t in s.ids ensures EarlierMass(s.ids, s.w, t) == 0.0 { DistinctHasNoEarlier(s.ids, s.w, t); }
    }
  }

  // ---------------------------------------------------------------- the law drawn from

  /** The residual with clamp, clamped divisor and fallback. */
  function OverwrittenResidual(p: seq<real>, s: Sparse, tiny: real): (r: seq<real>)
    requires |s.ids| == |s.w| && InVocabulary(s.ids, |p|) && tiny > 0.0
    ensures |r| == |p|
  {
    var r := OverwrittenPart(p, s);
    var total := Sum(r);
    if total > 0.0 then Scale(r, Inverse(if total > tiny then total else tiny)) else p
  }

  /** It can always be sampled, and the division does not change its law. */
  lemma OverwrittenSamplable(p: seq<real>, s: Sparse, tiny: real)
    requires IsLaw(p, |p|) && s.Valid(|p|) && tiny > 0.0
    ensures Sum(OverwrittenResidual(p, s, tiny)) > 0.0
    ensures Sum(OverwrittenPart(p, s)) > 0.0 ==>
      MultinomialLaw(OverwrittenResidual(p, s, tiny)) == MultinomialLaw(OverwrittenPart(p, s))
  {
    hide Times, Inverse, Scale, Sum, MultinomialLaw, OverwrittenPart;
    var total := Sum(OverwrittenPart(p, s));
    if total > 0.0 {
      var d := if total > tiny then total else tiny;
      InverseLaw(d);
      MultinomialScaleInvariant(OverwrittenPart(p, s), Inverse(d));
    }
  }

  function OverwrittenLaw(p: seq<real>, s: Sparse, tiny: real): (r: seq<real>)
    requires IsLaw(p, |p|) && s.Valid(|p|) && tiny > 0.0
    ensures |r| == |p|
  {
    OverwrittenSamplable(p, s, tiny);
    MultinomialLaw(OverwrittenResidual(p, s, tiny))
  }

  lemma {:induction false} DominatedSum(a: seq<real>, b: seq<real>)
    requires |a| == |b| && forall t :: 0 <= t < |a| ==> a[t] >= b[t]
    ensures Sum(a) >= Sum(b) && (Sum(a) == Sum(b) ==> a == b)
  {
    if a != [] {
      DominatedSum(a[1..], b[1..]);
      if Sum(a) == Sum(b) { assert a == [a[0]] + a[1..] && b == [b[0]] + b[1..]; }
    }
  }

  /** Normalised rows with a common positive entry have the same total. */
  lemma SameTotal(a: seq<real>, b: seq<real>, u: nat)
    requires |a| == |b| && u < |a| && a[u] == b[u] > 0.0 && Sum(a) > 0.0 && Sum(b) > 0.0
    requires MultinomialLaw(a) == MultinomialLaw(b)
    ensures Sum(a) == Sum(b)
  {
    hide Times, Inverse, Sum;
    assert Times(a[u], Inverse(Sum(a))) == Times(b[u], Inverse(Sum(b)));
    CancelFactor(a[u], Inverse(Sum(a)), Inverse(Sum(b)));
    InverseLaw(Sum(a));
    InverseLaw(Sum(b));
    Commute(Sum(a), Inverse(Sum(a)));
    Commute(Sum(b), Inverse(Sum(b)));
    CancelFactor(Inverse(Sum(a)), Sum(a), Sum(b));
  }

  /**
   * Where no candidate loses anything the bonus token has the law of the accumulating residual; and where some
   * other token has target mass, only there.
   */
  lemma OverwriteDrawsAlike(p: seq<real>, s: Sparse, tiny: real)
    requires IsLaw(p, |p|) && s.Valid(|p|) && tiny > 0.0
    ensures LosesNothing(p, s) ==> OverwrittenLaw(p, s, tiny) == BonusLaw(p, Dense(s, |p|), tiny)
    ensures (exists u: Token :: u < |p| && u !in s.ids && p[u] > 0.0) ==>
      (OverwrittenLaw(p, s, tiny) == BonusLaw(p, Dense(s, |p|), tiny) <==> LosesNothing(p, s))
  {
    hide Sum, MultinomialLaw, Dense, ScatterPut, ScatterAdd, LosesNothing, Scale, Inverse;
    LawNonEmpty(p);
    OverwriteIsAccumulate(p, s);
    SparseRowIsDense(p, s, 0);
    if u: Token :| u < |p| && u !in s.ids && p[u] > 0.0 {
      OnlyWhereNothingIsLost(p, s, tiny, u);
    }
  }

  lemma OnlyWhereNothingIsLost(p: seq<real>, s: Sparse, tiny: real, u: Token)
    requires IsLaw(p, |p|) && s.Valid(|p|) && tiny > 0.0 && u < |p| && u !in s.ids && p[u] > 0.0
    ensures OverwrittenLaw(p, s, tiny) == BonusLaw(p, Dense(s, |p|), tiny) ==> LosesNothing(p, s)
  {
    hide Sum, MultinomialLaw, Dense, LosesNothing, OverwrittenPart, OverwrittenResidual, ResidualWeights;
    LawNonEmpty(p);
    var a, b := OverwrittenPart(p, s), SparsePositivePart(p, s);
    forall t | 0 <= t < |p| ensures a[t] >= b[t] >= 0.0 { PartsAt(p, s, t); }
    PartsAt(p, s, u);
    SumNonNegative(a);
    SumNonNegative(b);
    SparseRowIsDense(p, s, u);
    OverwrittenSamplable(p, s, tiny);
    ResidualSamplable(p, Dense(s, |p|), tiny);
    OverwriteIsAccumulate(p, s);
    if OverwrittenLaw(p, s, tiny) == BonusLaw(p, Dense(s, |p|), tiny) {
      SameTotal(a, b, u);
      DominatedSum(a, b);
    }
  }

  /** What the overwriting row has on top of the accumulating one. */
  function Surplus(p: seq<real>, s: Sparse): (r: seq<real>)
    requires |s.ids| == |s.w| && InVocabulary(s.ids, |p|)
    ensures |r| == |p|
  {
    seq(|p|, t requires 0 <= t < |p| => OverwrittenPart(p, s)[t] - SparsePositivePart(p, s)[t])
  }

  lemma {:induction false} SumOfDifferences(a: seq<real>, b: seq<real>, d: seq<real>)
    requires |a| == |b| == |d| && forall t :: 0 <= t < |a| ==> d[t] == a[t] - b[t]
    ensures Sum(a) == Sum(b) + Sum(d)
  {
    if a != [] { SumOfDifferences(a[1..], b[1..], d[1..]); }
  }

  lemma CrossMultiply(x: real, s: real, y: real, u: real)
    requires s > 0.0 && u > 0.0
    ensures Times(x, Inverse(s)) == Times(y, Inverse(u)) <==> Times(x, u) == Times(y, s)
  {
    hide Times, Inverse;
    CancelInverse(x, s);
    CancelInverse(y, u);
    Associate(u, s, Times(x, Inverse(s)));
    Associate(s, u, Times(y, Inverse(u)));
    Commute(s, u);
    Commute(u, x);
    Commute(s, y);
    if Times(x, u) == Times(y, s) {
      PositiveProduct(u, s);
      CancelFactor(Times(u, s), Times(x, Inverse(s)), Times(y, Inverse(u)));
    }
  }

  /**
   * In general, where a rejection is possible at all, the two draw from the same law exactly when the surplus is
   * proportional to the accumulating row.
   */
  lemma OverwriteDrawsAlikeIff(p: seq<real>, s: Sparse, tiny: real)
    requires IsLaw(p, |p|) && s.Valid(|p|) && tiny > 0.0 && Sum(SparsePositivePart(p, s)) > 0.0
    ensures OverwrittenLaw(p, s, tiny) == BonusLaw(p, Dense(s, |p|), tiny)
      <==> forall t :: 0 <= t < |p| ==>
             Times(Surplus(p, s)[t], Sum(SparsePositivePart(p, s))) == Times(SparsePositivePart(p, s)[t], Sum(Surplus(p, s)))
  {
    hide Sum, Times, Inverse, Dense, OverwrittenPart, SparsePositivePart, OverwrittenResidual, ResidualWeights;
    var a, b, d := OverwrittenPart(p, s), SparsePositivePart(p, s), Surplus(p, s);
    LawNonEmpty(p);
    forall t | 0 <= t < |p| ensures a[t] >= b[t] { PartsAt(p, s, t); }
    DominatedSum(a, b);
    SumOfDifferences(a, b, d);
    SparseRowIsDense(p, s, 0);
    OverwrittenSamplable(p, s, tiny);
    ResidualSamplable(p, Dense(s, |p|), tiny);
    forall t | 0 <= t < |p|
      ensures MultinomialLaw(a)[t] == MultinomialLaw(b)[t] <==> Times(d[t], Sum(b)) == Times(b[t], Sum(d))
    {
      CrossMultiply(a[t], Sum(a), b[t], Sum(b));
      AddLeft(b[t], d[t], Sum(b));
      AddRight(b[t], Sum(b), Sum(d));
    }
  }

  /** A candidate listed twice: the overwriting residual still draws it, the accumulating one never does. */
  lemma OverwriteLosesRepeatedMass(tiny: real)
    requires 0.0 < tiny
    ensures var p, s := [0.9, 0.1], Sparse([0, 0], [0.5, 0.5]);
      && IsLaw(p, 2) && s.Valid(2) && !LosesNothing(p, s)
      && OverwrittenLaw(p, s, tiny) == [0.8, 0.2] && BonusLaw(p, Dense(s, 2), tiny) == [0.0, 1.0]
  {
    hide ScatterPut, Dense, OverwrittenLaw, BonusLaw, MultinomialLaw, OverwrittenResidual, ResidualWeights;
    var p, s := [0.9, 0.1], Sparse([0, 0], [0.5, 0.5]);
    PairSum(0.9, 0.1);
    PairSum(0.5, 0.5);
    assert [0, 0][1..] == [0] && [0.5, 0.5][1..] == [0.5] && [0][1..] == [];
    PartsAt(p, s, 1);
    assert OverwrittenPart(p, s) == [0.4, 0.1] by { ScatterPutAt(p, p, s.ids, s.w, 0); }
    assert SparsePositivePart(p, s) == [0.0, 0.1] by {
      ScatterAddAt(p, s.ids, s.w, -1.0, 0);
      MassSplit(s.ids, s.w, 0);
    }
    LawsOfPairs(p, s, tiny);
  }

  lemma LawsOfPairs(p: seq<real>, s: Sparse, tiny: real)
    requires IsLaw(p, |p|) && s.Valid(|p|) && tiny > 0.0
    requires OverwrittenPart(p, s) == [0.4, 0.1] && SparsePositivePart(p, s) == [0.0, 0.1]
    ensures OverwrittenLaw(p, s, tiny) == [0.8, 0.2] && BonusLaw(p, Dense(s, |p|), tiny) == [0.0, 1.0]
  {
    hide OverwrittenPart, SparsePositivePart, OverwrittenResidual, ResidualWeights, Dense;
    PairSum(0.4, 0.1);
    PairSum(0.0, 0.1);
    OverwrittenSamplable(p, s, tiny);
    LawNonEmpty(p);
    SparseRowIsDense(p, s, 0);
    ResidualSamplable(p, Dense(s, |p|), tiny);
  }

  lemma PairSum(a: real, b: real)
    ensures Sum([a, b]) == a + b
  {
    assert [b][1..] == [] && Sum([b]) == b;
    assert [a, b][1..] == [b];
  }

  // ---------------------------------------------------------------- the MLX verification step

  /** Accepted count and bonus law of the MLX version on candidate rows. */
  function OverwritingSample(u: seq<real>, x: seq<Token>, p: seq<seq<real>>, q: seq<Sparse>, n: nat, tiny: real)
    : (r: (nat, seq<real>))
    requires |u| == |x| == |q| && |p| == |q| + 1 && AreLaws(p, n) && AreSparse(q, n)
    requires InVocabulary(x, n) && tiny > 0.0
    ensures r.0 <= |x|
  {
    var flags := AcceptFlags(u, MaskedMasses(q, x), Gather(p, x, n));
    AcceptedLengthIsLongestPrefix(flags);
    var k := AcceptedLength(flags);
    (k, if k == |q| then MultinomialLaw(p[k]) else OverwrittenLaw(p[k], q[k], tiny))
  }

  /** With distinct candidates, as the selector's, it returns what the accumulating version does. */
  lemma OverwritingSampleIsDense(u: seq<real>, x: seq<Token>, p: seq<seq<real>>, q: seq<Sparse>, n: nat, tiny: real)
    requires |u| == |x| == |q| && |p| == |q| + 1 && AreLaws(p, n) && AreSparse(q, n)
    requires InVocabulary(x, n) && tiny > 0.0
    requires forall k :: 0 <= k < |q| ==> forall i, j :: 0 <= i < j < |q[k].ids| ==> q[k].ids[i] != q[k].ids[j]
    ensures AreLaws(DenseRows(q, n), n)
    ensures OverwritingSample(u, x, p, q, n, tiny) == RejectionSample(u, x, p, DenseRows(q, n), n, tiny)
  {
    hide AcceptFlags, Gather, Sum, OverwrittenLaw, BonusLaw, Dense, MultinomialLaw, MaskedMasses, LosesNothing;
    SparseSampleIsDense(u, x, p, q, n, tiny);
    MaskedMassesAreDense(q, x, n);
    var k := OverwritingSample(u, x, p, q, n, tiny).0;
    if k < |q| {
      OverwriteIsAccumulate(p[k], q[k]);
      OverwriteDrawsAlike(p[k], q[k], tiny);
    }
  }
}
