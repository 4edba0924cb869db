/** Finite sums, weighted averages and probability rows over a vocabulary of `n` tokens. */
module Distribution {
  import opened RealArithmetic

  type Token = nat

  function Sum(w: seq<real>): real {
    if w == [] then 0.0 else w[0] + Sum(w[1..])
  }

  /** The average of `v` under the weights `w`: the sum of all `w[t] * v[t]`. */
  function Dot(w: seq<real>, v: seq<real>): real
    requires |w| == |v|
  {
    if w == [] then 0.0 else Times(w[0], v[0]) + Dot(w[1..], v[1..])
  }

  ghost predicate NonNegative(w: seq<real>) {
    forall t :: 0 <= t < |w| ==> w[t] >= 0.0
  }

  /** A probability row over `n` tokens. */
  ghost predicate IsLaw(w: seq<real>, n: nat) {
    |w| == n && NonNegative(w) && Sum(w) == 1.0
  }

  function Scale(w: seq<real>, c: real): (r: seq<real>)
    ensures |r| == |w|
  {
    seq(|w|, t requires 0 <= t < |w| => Times(w[t], c))
  }

  lemma {:induction false} SumScale(w: seq<real>, c: real)
    ensures Sum(Scale(w, c)) == Times(Sum(w), c)
  {
    hide Times;
    if w == [] {
      Unit(c);
    } else {
      SumScale(w[1..], c);
      AddLeft(w[0], Sum(w[1..]), c);
      assert Scale(w, c)[1..] == Scale(w[1..], c);
    }
  }

  lemma {:induction false} DotScale(w: seq<real>, c: real, v: seq<real>)
    requires |w| == |v|
    ensures Dot(Scale(w, c), v) == Times(Dot(w, v), c)
  {
    hide Times;
    if w == [] {
      Unit(c);
    } else {
      DotScale(w[1..], c, v[1..]);
      AddLeft(Times(w[0], v[0]), Dot(w[1..], v[1..]), c);
      Associate(w[0], c, v[0]);
      Associate(w[0], v[0], c);
      Commute(c, v[0]);
      assert Scale(w, c)[1..] == Scale(w[1..], c);
    }
  }

  lemma {:induction false} SumNonNegative(w: seq<real>)
    requires NonNegative(w)
    ensures Sum(w) >= 0.0
    ensures forall t :: 0 <= t < |w| ==> w[t] <= Sum(w)
    ensures Sum(w) == 0.0 ==> forall t :: 0 <= t < |w| ==> w[t] == 0.0
  {
    if w != [] {
      SumNonNegative(w[1..]);
      forall t | 0 <= t < |w| ensures w[t] <= Sum(w) {
        if t > 0 { assert w[t] == w[1..][t - 1]; }
      }
    }
  }

  lemma {:induction false} DotZero(w: seq<real>, v: seq<real>)
    requires |w| == |v|
    requires forall t :: 0 <= t < |w| ==> w[t] == 0.0
    ensures Dot(w, v) == 0.0
  {
    hide Times;
    if w != [] {
      Unit(v[0]);
      DotZero(w[1..], v[1..]);
    }
  }

  /** Averaging a value that does not depend on the token leaves the value. */
  lemma {:induction false} DotConstant(w: seq<real>, v: seq<real>, c: real)
    requires |w| == |v|
    requires forall t :: 0 <= t < |w| ==> v[t] == c
    ensures Dot(w, v) == Times(Sum(w), c)
  {
    hide Times;
    if w == [] {
      Unit(c);
    } else {
      DotConstant(w[1..], v[1..], c);
      AddLeft(w[0], Sum(w[1..]), c);
    }
  }

  /** Averaging is linear in the values. */
  lemma {:induction false} DotMix(w: seq<real>, v: seq<real>, x: seq<real>, a: real, b: real)
    requires |w| == |v| == |x|
    requires forall t :: 0 <= t < |w| ==> v[t] == Times(a, x[t]) + b
    ensures Dot(w, v) == Times(a, Dot(w, x)) + Times(Sum(w), b)
  {
    hide Times;
    if w == [] {
      Unit(a);
      Unit(b);
    } else {
      DotMix(w[1..], v[1..], x[1..], a, b);
      AddRight(w[0], Times(a, x[0]), b);
      Associate(w[0], a, x[0]);
      Commute(w[0], a);
      Associate(a, w[0], x[0]);
      AddRight(a, Times(w[0], x[0]), Dot(w[1..], x[1..]));
      AddLeft(w[0], Sum(w[1..]), b);
    }
  }

  /** The law of multinomial sampling from non-negative weights with a positive total. */
  function MultinomialLaw(w: seq<real>): (r: seq<real>)
    requires Sum(w) > 0.0
    ensures |r| == |w|
  {
    Scale(w, Inverse(Sum(w)))
  }

  lemma MultinomialIsLaw(w: seq<real>)
    requires NonNegative(w) && Sum(w) > 0.0
    ensures IsLaw(MultinomialLaw(w), |w|)
  {
    hide Times, Inverse, Sum;
    InverseLaw(Sum(w));
    SumScale(w, Inverse(Sum(w)));
    forall t | 0 <= t < |w| ensures MultinomialLaw(w)[t] >= 0.0 {
      NonNegativeProduct(w[t], Inverse(Sum(w)));
    }
  }

  lemma MultinomialAverage(w: seq<real>, v: seq<real>)
    requires |w| == |v| && Sum(w) > 0.0
    ensures Times(Sum(w), Dot(MultinomialLaw(w), v)) == Dot(w, v)
  {
    hide Times, Inverse, Sum, Dot, Scale;
    DotScale(w, Inverse(Sum(w)), v);
    CancelInverse(Dot(w, v), Sum(w));
  }

  lemma MultinomialOfLaw(w: seq<real>)
    requires Sum(w) == 1.0
    ensures MultinomialLaw(w) == w
  {
    hide Times, Sum;
    assert Inverse(Sum(w)) == 1.0;
    forall t | 0 <= t < |w| ensures MultinomialLaw(w)[t] == w[t] { Unit(w[t]); }
  }

  /** Multinomial sampling ignores a common positive factor of the weights. */
  lemma MultinomialScaleInvariant(w: seq<real>, c: real)
    requires Sum(w) > 0.0 && c > 0.0
    ensures Sum(Scale(w, c)) > 0.0
    ensures MultinomialLaw(Scale(w, c)) == MultinomialLaw(w)
  {
    hide Times, Inverse, Sum;
    var s := Sum(w);
    SumScale(w, c);
    PositiveProduct(s, c);
    InverseOfProduct(s, c);
    forall t | 0 <= t < |w| ensures MultinomialLaw(Scale(w, c))[t] == MultinomialLaw(w)[t] {
      Associate(w[t], c, Inverse(Times(s, c)));
    }
  }

  lemma InverseOfProduct(s: real, c: real)
    requires s > 0.0 && c > 0.0
    ensures Times(s, c) > 0.0 && Times(c, Inverse(Times(s, c))) == Inverse(s)
  {
    hide Times, Inverse;
    PositiveProduct(s, c);
    InverseLaw(Times(s, c));
    InverseLaw(s);
    Associate(s, c, Inverse(Times(s, c)));
    CancelFactor(s, Times(c, Inverse(Times(s, c))), Inverse(s));
  }
}
