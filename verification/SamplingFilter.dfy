/** Temperature, top-k and top-p filtering of one row of logits. */
module SamplingFilter {
  import opened Distribution
  import opened Permutations
  import opened RealArithmetic
  import opened SpeculativeBlock

  // ---------------------------------------------------------------- tensor primitives

  /** What `topk` returns: `k` distinct positions whose scores no other position exceeds. */
  ghost predicate IsTopK(scores: seq<real>, ids: seq<nat>, k: nat) {
    && |ids| == k && Distinct(ids) && Below(ids, |scores|)
    && forall i, t :: 0 <= i < k && 0 <= t < |scores| && t !in ids ==> scores[t] <= scores[ids[i]]
  }

  /** What `sort(descending=True)` returns as its index row. */
  ghost predicate IsDescendingOrder(probs: seq<real>, order: seq<nat>) {
    && IsPermutation(order, |probs|)
    && forall i, j :: 0 <= i < j < |order| ==> probs[order[i]] >= probs[order[j]]
  }

  /** `gather(-1, ids)` */
  function Take(row: seq<real>, ids: seq<nat>): (r: seq<real>)
    requires Below(ids, |row|)
    ensures |r| == |ids|
  {
    seq(|ids|, i requires 0 <= i < |ids| => row[ids[i]])
  }

  /** `scatter(-1, ids, w)`: overwrite the entries named by `ids`. */
  function Scatter(row: seq<real>, ids: seq<nat>, w: seq<real>): (r: seq<real>)
    requires |ids| == |w| && Below(ids, |row|)
    ensures |r| == |row|
    decreases |ids|
  {
    if ids == [] then row else Scatter(row[ids[0] := w[0]], ids[1..], w[1..])
  }

  /** Inclusive running sums. */
  function CumSum(w: seq<real>, carry: real): (r: seq<real>)
    ensures |r| == |w|
  {
    if w == [] then [] else [carry + w[0]] + CumSum(w[1..], carry + w[0])
  }

  // ---------------------------------------------------------------- the filter

  ghost predicate IsExponential(exp: real -> real) {
    forall x :: exp(x) > 0.0
  }

  lemma ExponentialAt(exp: real -> real, x: real)
    requires IsExponential(exp)
    ensures exp(x) > 0.0
  {}

  /** `softmax`, for an exponential the model leaves uninterpreted. */
  function Softmax(scores: seq<real>, exp: real -> real): (r: seq<real>)
    requires scores != [] && IsExponential(exp)
    ensures |r| == |scores|
  {
    ExpPositive(scores, exp);
    MultinomialLaw(Exponentials(scores, exp))
  }

  function Exponentials(scores: seq<real>, exp: real -> real): (r: seq<real>)
    ensures |r| == |scores|
  {
    seq(|scores|, t requires 0 <= t < |scores| => exp(scores[t]))
  }

  lemma ExpPositive(scores: seq<real>, exp: real -> real)
    requires scores != [] && IsExponential(exp)
    ensures Sum(Exponentials(scores, exp)) > 0.0
  {
    var w := Exponentials(scores, exp);
    forall t | 0 <= t < |w| ensures w[t] > 0.0 { ExponentialAt(exp, scores[t]); }
    SumNonNegative(w);
  }

  /** The entries with `cumsum - entry < top_p`, the rest zeroed. */
  function Kept(sorted: seq<real>, topP: real): (r: seq<real>)
    ensures |r| == |sorted|
  {
    var c := CumSum(sorted, 0.0);
    seq(|sorted|, i requires 0 <= i < |sorted| => if c[i] - sorted[i] < topP then sorted[i] else 0.0)
  }

  /** Nucleus filtering of a probability row, given the sort order the library chose. */
  function Nucleus(probs: seq<real>, order: seq<nat>, topP: real): (r: seq<real>)
    requires IsPositiveLaw(probs) && IsDescendingOrder(probs, order) && 0.0 < topP < 1.0
    ensures |r| == |probs|
  {
    NucleusSamplable(probs, order, topP);
    MultinomialLaw(Scatter(Zeros(|probs|), order, Kept(Take(probs, order), topP)))
  }

  /** The sampling row of `logits`; `ids` and `order` are the choices of `topk` and `sort`. */
  function SamplingProbs(logits: seq<real>, temperature: real, topP: real, topK: nat, exp: real -> real,
                         ids: seq<nat>, order: seq<nat>): (r: seq<real>)
    requires logits != [] && temperature > 0.0 && 0.0 < topP <= 1.0 && IsExponential(exp)
    requires var scores := Scale(logits, Inverse(temperature));
      && (0 < topK < |logits| ==> IsTopK(scores, ids, topK))
      && (topP < 1.0 ==> IsDescendingOrder(Softmax(Selected(scores, topK, ids), exp), order))
    ensures |r| == |logits|
  {
    var scores := Scale(logits, Inverse(temperature));
    var probs := Softmax(Selected(scores, topK, ids), exp);
    SoftmaxPositive(Selected(scores, topK, ids), exp);
    var filtered := if topP < 1.0 then Nucleus(probs, order, topP) else probs;
    if 0 < topK < |logits| then Scatter(Zeros(|logits|), ids, filtered) else filtered
  }

  function Selected(scores: seq<real>, topK: nat, ids: seq<nat>): (r: seq<real>)
    requires scores != [] && (0 < topK < |scores| ==> |ids| == topK && Below(ids, |scores|))
    ensures |r| == if 0 < topK < |scores| then topK else |scores|
  {
    if 0 < topK < |scores| then Take(scores, ids) else scores
  }

  // ---------------------------------------------------------------- what the filter keeps

  ghost predicate IsPositiveLaw(probs: seq<real>) {
    && IsLaw(probs, |probs|)
    && forall t :: 0 <= t < |probs| ==> probs[t] > 0.0
  }

  lemma SoftmaxPositive(scores: seq<real>, exp: real -> real)
    requires scores != [] && IsExponential(exp)
    ensures IsPositiveLaw(Softmax(scores, exp))
  {
    hide Times, Inverse, Sum;
    var w := Exponentials(scores, exp);
    ExpPositive(scores, exp);
    forall t | 0 <= t < |w| ensures w[t] > 0.0 { ExponentialAt(exp, scores[t]); }
    MultinomialIsLaw(w);
    InverseLaw(Sum(w));
    forall t | 0 <= t < |w| ensures Softmax(scores, exp)[t] > 0.0 {
      ExponentialAt(exp, scores[t]);
      PositiveProduct(w[t], Inverse(Sum(w)));
    }
  }

  /** The shortest prefix of the sorted row with at least `topP` of the mass. */
  ghost predicate IsNucleusSize(sorted: seq<real>, topP: real, m: nat) {
    && 0 < m <= |sorted|
    && Sum(sorted[..m]) >= topP
    && forall k :: 0 <= k < m ==> Sum(sorted[..k]) < topP
  }

  lemma {:induction false} CumSumAt(w: seq<real>, carry: real, i: nat)
    requires i < |w|
    ensures CumSum(w, carry)[i] == carry + Sum(w[..i]) + w[i]
  {
    if i > 0 {
      CumSumAt(w[1..], carry + w[0], i - 1);
      assert w[..i][1..] == w[1..][..i - 1];
    }
  }

  lemma {:induction false} PrefixMonotone(w: seq<real>, i: nat, j: nat)
    requires NonNegative(w) && i <= j <= |w|
    ensures Sum(w[..i]) <= Sum(w[..j])
  {
    if i == 0 {
      SumNonNegative(w[..j]);
    } else {
      PrefixMonotone(w[1..], i - 1, j - 1);
      assert w[..i][1..] == w[1..][..i - 1] && w[..j][1..] == w[1..][..j - 1];
    }
  }

  /** The keep mask is exactly the nucleus. */
  lemma KeptIsPrefix(sorted: seq<real>, topP: real, m: nat)
    requires NonNegative(sorted) && IsNucleusSize(sorted, topP, m)
    ensures Kept(sorted, topP) == sorted[..m] + Zeros(|sorted| - m)
  {
    forall i | 0 <= i < |sorted| ensures Kept(sorted, topP)[i] == (sorted[..m] + Zeros(|sorted| - m))[i] {
      CumSumAt(sorted, 0.0, i);
      if i >= m { PrefixMonotone(sorted, m, i); }
    }
  }

  lemma NucleusSizeExists(sorted: seq<real>, topP: real) returns (m: nat)
    requires Sum(sorted) >= topP > 0.0
    ensures IsNucleusSize(sorted, topP, m)
  {
    m := 0;
    while Sum(sorted[..m]) < topP
      invariant m <= |sorted|
      invariant forall k :: 0 <= k < m ==> Sum(sorted[..k]) < topP
      decreases |sorted| - m
    {
      assert sorted[..|sorted|] == sorted;
      m := m + 1;
    }
  }

  lemma {:induction false} SumOfConcat(a: seq<real>, b: seq<real>)
    ensures Sum(a + b) == Sum(a) + Sum(b)
  {
    if a == [] {
      assert a + b == b;
    } else {
      SumOfConcat(a[1..], b);
      assert (a + b)[1..] == a[1..] + b;
    }
  }

  // ---------------------------------------------------------------- scatter over distinct positions

  lemma {:induction false} ScatterIsAdd(row: seq<real>, ids: seq<nat>, w: seq<real>)
    requires |ids| == |w| && Below(ids, |row|) && Distinct(ids)
    requires forall i :: 0 <= i < |ids| ==> row[ids[i]] == 0.0
    ensures Scatter(row, ids, w) == ScatterAdd(row, ids, w, 1.0)
    decreases |ids|
  {
    if ids != [] {
      assert row[ids[0]] + w[0] == w[0];
      ScatterIsAdd(row[ids[0] := w[0]], ids[1..], w[1..]);
    }
  }

  lemma {:induction false} MassAt(ids: seq<nat>, w: seq<real>, i: nat)
    requires |ids| == |w| && Distinct(ids) && i < |ids|
    ensures MaskedMass(ids, w, ids[i]) == w[i]
  {
    if i == 0 {
      AbsentMass(ids[1..], w[1..], ids[0]);
    } else {
      MassAt(ids[1..], w[1..], i - 1);
    }
  }

  /** Scattering onto zeros moves every weight to its place and nothing anywhere else. */
  lemma ScatterOntoZeros(n: nat, ids: seq<nat>, w: seq<real>)
    requires |ids| == |w| && Below(ids, n) && Distinct(ids)
    ensures Sum(Scatter(Zeros(n), ids, w)) == Sum(w)
    ensures forall i :: 0 <= i < |ids| ==> Scatter(Zeros(n), ids, w)[ids[i]] == w[i]
    ensures forall t :: 0 <= t < n && t !in ids ==> Scatter(Zeros(n), ids, w)[t] == 0.0
  {
    hide Times, Dot;
    ScatterIsAdd(Zeros(n), ids, w);
    var v := Zeros(n);
    ScatterAddAverage(Zeros(n), ids, w, v, seq(|w|, j requires 0 <= j < |w| => v[ids[j]]));
    ZeroSum(n);
    forall i | 0 <= i < |ids| ensures Scatter(Zeros(n), ids, w)[ids[i]] == w[i] {
      ScatterAddAt(Zeros(n), ids, w, 1.0, ids[i]);
      MassAt(ids, w, i);
    }
    forall t | 0 <= t < n && t !in ids ensures Scatter(Zeros(n), ids, w)[t] == 0.0 {
      ScatterAddAt(Zeros(n), ids, w, 1.0, t);
      AbsentMass(ids, w, t);
    }
  }

  /** Gathering along a permutation keeps the total. */
  lemma TakeKeepsSum(probs: seq<real>, order: seq<nat>)
    requires IsPermutation(order, |probs|)
    ensures Sum(Take(probs, order)) == Sum(probs)
  {
    ScatterOntoZeros(|probs|, order, Take(probs, order));
    var r := Scatter(Zeros(|probs|), order, Take(probs, order));
    forall t | 0 <= t < |probs| ensures r[t] == probs[t] {
      PermutationCovers(order, |probs|, t);
      var i :| 0 <= i < |order| && order[i] == t;
    }
    assert r == probs;
  }

  lemma NucleusSamplable(probs: seq<real>, order: seq<nat>, topP: real)
    requires IsPositiveLaw(probs) && IsDescendingOrder(probs, order) && 0.0 < topP < 1.0
    ensures Sum(Scatter(Zeros(|probs|), order, Kept(Take(probs, order), topP))) >= topP
  {
    var sorted := Take(probs, order);
    TakeKeepsSum(probs, order);
    var m := NucleusSizeExists(sorted, topP);
    KeptIsPrefix(sorted, topP, m);
    SumOfConcat(sorted[..m], Zeros(|sorted| - m));
    ZeroSum(|sorted| - m);
    ScatterOntoZeros(|probs|, order, Kept(sorted, topP));
  }

  /**
   * Top-p keeps the shortest non-empty prefix of the sorted row that holds `topP` of the mass, divides it by
   * that prefix's mass and zeroes the rest; the result is a law.
   */
  lemma NucleusKeepsShortestPrefix(probs: seq<real>, order: seq<nat>, topP: real) returns (m: nat)
    requires IsPositiveLaw(probs) && IsDescendingOrder(probs, order) && 0.0 < topP < 1.0
    ensures IsNucleusSize(Take(probs, order), topP, m)
    ensures IsLaw(Nucleus(probs, order, topP), |probs|)
    ensures forall i :: 0 <= i < m ==>
      && Nucleus(probs, order, topP)[order[i]] > 0.0
      && Times(Sum(Take(probs, order)[..m]), Nucleus(probs, order, topP)[order[i]]) == probs[order[i]]
    ensures forall i :: m <= i < |order| ==> Nucleus(probs, order, topP)[order[i]] == 0.0
  {
    hide Times, Inverse, Sum;
    var sorted := Take(probs, order);
    TakeKeepsSum(probs, order);
    m := NucleusSizeExists(sorted, topP);
    KeptIsPrefix(sorted, topP, m);
    SumOfConcat(sorted[..m], Zeros(|sorted| - m));
    ZeroSum(|sorted| - m);
    var kept := Kept(sorted, topP);
    var w := Scatter(Zeros(|probs|), order, kept);
    ScatterOntoZeros(|probs|, order, kept);
    InverseLaw(Sum(w));
    forall t | 0 <= t < |probs| ensures w[t] >= 0.0 {
      PermutationCovers(order, |probs|, t);
      var i :| 0 <= i < |order| && order[i] == t;
    }
    MultinomialIsLaw(w);
    forall i | 0 <= i < |order|
      ensures i < m ==> Nucleus(probs, order, topP)[order[i]] > 0.0
      ensures i < m ==> Times(Sum(sorted[..m]), Nucleus(probs, order, topP)[order[i]]) == probs[order[i]]
      ensures i >= m ==> Nucleus(probs, order, topP)[order[i]] == 0.0
    {
      if i < m {
        PositiveProduct(w[order[i]], Inverse(Sum(w)));
        CancelInverse(w[order[i]], Sum(w));
      } else {
        Unit(Inverse(Sum(w)));
      }
    }
  }

  /** The vocabulary id of entry `i` of the selected row. */
  function Place(n: nat, topK: nat, ids: seq<nat>, i: nat): (t: nat)
    requires i < n && (0 < topK < n ==> i < |ids| && Below(ids, n))
    ensures t < n
  {
    if 0 < topK < n then ids[i] else i
  }

  /** The filtered row before it is scattered over the vocabulary. */
  function Filtered(probs: seq<real>, order: seq<nat>, topP: real): (r: seq<real>)
    requires IsPositiveLaw(probs) && 0.0 < topP <= 1.0 && (topP < 1.0 ==> IsDescendingOrder(probs, order))
    ensures |r| == |probs|
  {
    if topP < 1.0 then Nucleus(probs, order, topP) else probs
  }

  /** Scattering puts every entry in its place and nothing elsewhere. */
  lemma PlacesHold(n: nat, topK: nat, ids: seq<nat>, filtered: seq<real>)
    requires |filtered| == if 0 < topK < n then topK else n
    requires 0 < topK < n ==> |ids| == topK && Distinct(ids) && Below(ids, n)
    ensures var r := if 0 < topK < n then Scatter(Zeros(n), ids, filtered) else filtered;
      && (forall i: nat :: i < |filtered| ==> r[Place(n, topK, ids, i)] == filtered[i])
      && (forall t: nat :: t < n && (forall i: nat :: i < |filtered| ==> Place(n, topK, ids, i) != t) ==> r[t] == 0.0)
  {
    hide Scatter, Sum;
    if 0 < topK < n {
      ScatterOntoZeros(n, ids, filtered);
      forall t: nat | t < n && t in ids ensures exists i: nat :: i < |filtered| && Place(n, topK, ids, i) == t {
        var i: nat :| i < |ids| && ids[i] == t;
        assert Place(n, topK, ids, i) == t;
      }
    } else {
      forall t: nat | t < n ensures Place(n, topK, ids, t) == t {}
    }
  }

  /**
   * Top-k and top-p together: of the softmax over the selected ids, the shortest descending prefix with mass `topP`
   * stands at its ids, divided by its mass (all of it for `topP == 1`); every other id has probability zero.
   */
  lemma SamplingProbsKeepNucleus(logits: seq<real>, temperature: real, topP: real, topK: nat, exp: real -> real,
                                 ids: seq<nat>, order: seq<nat>) returns (kept: seq<nat>)
    requires logits != [] && temperature > 0.0 && 0.0 < topP <= 1.0 && IsExponential(exp)
    requires var scores := Scale(logits, Inverse(temperature));
      && (0 < topK < |logits| ==> IsTopK(scores, ids, topK))
      && (topP < 1.0 ==> IsDescendingOrder(Softmax(Selected(scores, topK, ids), exp), order))
    ensures var probs := Softmax(Selected(Scale(logits, Inverse(temperature)), topK, ids), exp);
      var r := SamplingProbs(logits, temperature, topP, topK, exp, ids, order);
      && Below(kept, |probs|) && |probs| <= |logits|
      && (topP < 1.0 ==> kept <= order && IsNucleusSize(Take(probs, order), topP, |kept|))
      && (topP == 1.0 ==> kept == seq(|probs|, i => i))
      && (forall i :: i in kept ==>
           r[Place(|logits|, topK, ids, i)] > 0.0
           && Times(Sum(Take(probs, kept)), r[Place(|logits|, topK, ids, i)]) == probs[i])
      && (forall t: nat :: t < |logits| && (forall i :: i in kept ==> Place(|logits|, topK, ids, i) != t) ==> r[t] == 0.0)
  {
    hide Times, Inverse, Sum, Nucleus, Softmax, Scatter, IsNucleusSize;
    var n := |logits|;
    var probs := Softmax(Selected(Scale(logits, Inverse(temperature)), topK, ids), exp);
    SoftmaxPositive(Selected(Scale(logits, Inverse(temperature)), topK, ids), exp);
    var filtered := Filtered(probs, order, topP);
    kept := FilteredKeeps(probs, order, topP);
    PlacesHold(n, topK, ids, filtered);
    var r := SamplingProbs(logits, temperature, topP, topK, exp, ids, order);
    forall t: nat | t < n && (forall i :: i in kept ==> Place(n, topK, ids, i) != t) ensures r[t] == 0.0 {
      if i: nat :| i < |filtered| && Place(n, topK, ids, i) == t {
        assert i !in kept;
        assert r[Place(n, topK, ids, i)] == filtered[i];
      }
    }
  }

  /** Which entries the filtered row keeps, and that it keeps their ratios. */
  lemma FilteredKeeps(probs: seq<real>, order: seq<nat>, topP: real) returns (kept: seq<nat>)
    requires IsPositiveLaw(probs) && 0.0 < topP <= 1.0 && (topP < 1.0 ==> IsDescendingOrder(probs, order))
    ensures Below(kept, |probs|)
    ensures topP < 1.0 ==> kept <= order && IsNucleusSize(Take(probs, order), topP, |kept|)
    ensures topP == 1.0 ==> kept == seq(|probs|, i => i)
    ensures var f := Filtered(probs, order, topP);
      && (forall i :: i in kept ==> f[i] > 0.0 && Times(Sum(Take(probs, kept)), f[i]) == probs[i])
      && (forall i :: 0 <= i < |probs| && i !in kept ==> f[i] == 0.0)
  {
    hide Times, Inverse, Sum, Nucleus, Take;
    if topP < 1.0 {
      var m := NucleusKeepsShortestPrefix(probs, order, topP);
      kept := order[..m];
      TakePrefix(probs, order, m);
      forall j | 0 <= j < m ensures order[j] in kept { assert kept[j] == order[j]; }
      forall i | 0 <= i < |probs| && i !in kept ensures Filtered(probs, order, topP)[i] == 0.0 {
        PermutationCovers(order, |probs|, i);
        var j :| 0 <= j < |order| && order[j] == i;
      }
    } else {
      kept := seq(|probs|, i => i);
      TakeAll(probs);
      forall i | i in kept ensures Times(1.0, probs[i]) == probs[i] { Unit(probs[i]); }
      forall i | 0 <= i < |probs| ensures i in kept { assert kept[i] == i; }
    }
  }

  lemma TakePrefix(probs: seq<real>, order: seq<nat>, m: nat)
    requires Below(order, |probs|) && m <= |order|
    ensures Below(order[..m], |probs|) && Take(probs, order[..m]) == Take(probs, order)[..m]
  {}

  lemma TakeAll(probs: seq<real>)
    ensures Below(seq(|probs|, i => i), |probs|) && Take(probs, seq(|probs|, i => i)) == probs
  {}

  /** Softmax entries are proportional to the exponentials of their scores. */
  lemma SoftmaxAt(scores: seq<real>, exp: real -> real, i: nat)
    requires i < |scores| && IsExponential(exp)
    ensures Sum(Exponentials(scores, exp)) > 0.0
    ensures Times(Sum(Exponentials(scores, exp)), Softmax(scores, exp)[i]) == exp(scores[i])
  {
    hide Sum, Times, Inverse;
    ExpPositive(scores, exp);
    CancelInverse(exp(scores[i]), Sum(Exponentials(scores, exp)));
  }

  /** A selected entry is the scaled logit of its id. */
  lemma SelectedAt(logits: seq<real>, temperature: real, topK: nat, ids: seq<nat>, i: nat)
    requires logits != [] && temperature > 0.0
    requires 0 < topK < |logits| ==> |ids| == topK && Below(ids, |logits|)
    requires i < |Selected(Scale(logits, Inverse(temperature)), topK, ids)|
    ensures Selected(Scale(logits, Inverse(temperature)), topK, ids)[i] == logits[Place(|logits|, topK, ids, i)] / temperature
  {
    var t := Place(|logits|, topK, ids, i);
    assert Times(logits[t], Inverse(temperature)) == logits[t] / temperature;
  }

  /** One multiple takes every positive entry of the sampling row to the exponential of its scaled logit. */
  lemma MultipleOfExponentials(logits: seq<real>, temperature: real, topP: real, topK: nat, exp: real -> real,
                               ids: seq<nat>, order: seq<nat>) returns (c: real)
    requires logits != [] && temperature > 0.0 && 0.0 < topP <= 1.0 && IsExponential(exp)
    requires var scores := Scale(logits, Inverse(temperature));
      && (0 < topK < |logits| ==> IsTopK(scores, ids, topK))
      && (topP < 1.0 ==> IsDescendingOrder(Softmax(Selected(scores, topK, ids), exp), order))
    ensures var r := SamplingProbs(logits, temperature, topP, topK, exp, ids, order);
      && (forall t :: 0 <= t < |logits| && r[t] > 0.0 ==> Times(c, r[t]) == exp(logits[t] / temperature))
      && (topP == 1.0 && !(0 < topK < |logits|) ==>
           && c == Sum(seq(|logits|, u requires 0 <= u < |logits| => exp(logits[u] / temperature)))
           && forall t :: 0 <= t < |logits| ==> r[t] > 0.0)
  {
    hide Sum, Times, Softmax, SamplingProbs, Take, IsNucleusSize, Exponentials, Scale, Inverse;
    var kept := SamplingProbsKeepNucleus(logits, temperature, topP, topK, exp, ids, order);
    var selected := Selected(Scale(logits, Inverse(temperature)), topK, ids);
    var probs, r := Softmax(selected, exp), SamplingProbs(logits, temperature, topP, topK, exp, ids, order);
    var total, mass := Sum(Exponentials(selected, exp)), Sum(Take(probs, kept));
    c := Times(total, mass);
    forall t: nat | t < |logits| && r[t] > 0.0 ensures Times(c, r[t]) == exp(logits[t] / temperature) {
      var i :| i in kept && Place(|logits|, topK, ids, i) == t;
      SoftmaxAt(selected, exp, i);
      SelectedAt(logits, temperature, topK, ids, i);
      Associate(total, mass, r[t]);
    }
    if topP == 1.0 && !(0 < topK < |logits|) {
      WithoutFilters(logits, temperature, topK, exp, ids, selected, kept);
      Unit(total);
      forall t: nat | t < |logits| ensures r[t] > 0.0 { assert kept[t] == t && Place(|logits|, topK, ids, t) == t; }
    }
  }

  lemma RatioOf(c: real, x: real, y: real, a: real, b: real)
    requires Times(c, x) == a && Times(c, y) == b
    ensures x * b == y * a
  {
    assert x * b == x * (c * y) == (c * x) * y;
  }

  lemma Product(c: real, x: real)
    ensures x * c == Times(c, x)
  {}

  /**
   * In terms of the logits alone: the ids with positive probability have the ratios of `exp(logit / temperature)`, and
   * without filters every probability is that exponential divided by the sum of all of them.
   */
  lemma SamplingProbsFollowLogits(logits: seq<real>, temperature: real, topP: real, topK: nat, exp: real -> real,
                                  ids: seq<nat>, order: seq<nat>)
    requires logits != [] && temperature > 0.0 && 0.0 < topP <= 1.0 && IsExponential(exp)
    requires var scores := Scale(logits, Inverse(temperature));
      && (0 < topK < |logits| ==> IsTopK(scores, ids, topK))
      && (topP < 1.0 ==> IsDescendingOrder(Softmax(Selected(scores, topK, ids), exp), order))
    ensures var r := SamplingProbs(logits, temperature, topP, topK, exp, ids, order);
      && (forall s, t :: 0 <= s < |logits| && 0 <= t < |logits| && r[s] > 0.0 && r[t] > 0.0 ==>
           r[s] * exp(logits[t] / temperature) == r[t] * exp(logits[s] / temperature))
      && (topP == 1.0 && !(0 < topK < |logits|) ==> forall t :: 0 <= t < |logits| ==>
           r[t] * Sum(seq(|logits|, u requires 0 <= u < |logits| => exp(logits[u] / temperature))) == exp(logits[t] / temperature))
  {
    hide Sum, Times, Softmax, SamplingProbs, IsTopK, Scale, Inverse, Selected, IsDescendingOrder;
    var r := SamplingProbs(logits, temperature, topP, topK, exp, ids, order);
    var c := MultipleOfExponentials(logits, temperature, topP, topK, exp, ids, order);
    forall s, t | 0 <= s < |logits| && 0 <= t < |logits| && r[s] > 0.0 && r[t] > 0.0
      ensures r[s] * exp(logits[t] / temperature) == r[t] * exp(logits[s] / temperature)
    {
      RatioOf(c, r[s], r[t], exp(logits[s] / temperature), exp(logits[t] / temperature));
    }
    if topP == 1.0 && !(0 < topK < |logits|) {
      forall t | 0 <= t < |logits| ensures r[t] * c == exp(logits[t] / temperature) { Product(c, r[t]); }
    }
  }

  lemma WithoutFilters(logits: seq<real>, temperature: real, topK: nat, exp: real -> real, ids: seq<nat>,
                       selected: seq<real>, kept: seq<nat>)
    requires logits != [] && temperature > 0.0 && IsExponential(exp) && !(0 < topK < |logits|)
    requires selected == Selected(Scale(logits, Inverse(temperature)), topK, ids)
    requires kept == seq(|logits|, i => i)
    ensures Below(kept, |logits|) && Sum(Take(Softmax(selected, exp), kept)) == 1.0
    ensures Exponentials(selected, exp) == seq(|logits|, u requires 0 <= u < |logits| => exp(logits[u] / temperature))
  {
    hide Sum, Softmax, Scale;
    SoftmaxPositive(selected, exp);
    TakeAll(Softmax(selected, exp));
    forall u: nat | u < |logits| ensures selected[u] == logits[u] / temperature {
      SelectedAt(logits, temperature, topK, ids, u);
    }
  }

  /** Every sampling row is a law over the whole vocabulary, with no mass outside the selected ids. */
  lemma SamplingProbsIsLaw(logits: seq<real>, temperature: real, topP: real, topK: nat, exp: real -> real,
                           ids: seq<nat>, order: seq<nat>)
    requires logits != [] && temperature > 0.0 && 0.0 < topP <= 1.0 && IsExponential(exp)
    requires var scores := Scale(logits, Inverse(temperature));
      && (0 < topK < |logits| ==> IsTopK(scores, ids, topK))
      && (topP < 1.0 ==> IsDescendingOrder(Softmax(Selected(scores, topK, ids), exp), order))
    ensures IsLaw(SamplingProbs(logits, temperature, topP, topK, exp, ids, order), |logits|)
    ensures 0 < topK < |logits| ==> forall t :: 0 <= t < |logits| && t !in ids ==>
      SamplingProbs(logits, temperature, topP, topK, exp, ids, order)[t] == 0.0
  {
    hide Times, Inverse, Sum, Nucleus, Softmax, Scatter;
    var scores := Scale(logits, Inverse(temperature));
    var probs := Softmax(Selected(scores, topK, ids), exp);
    SoftmaxPositive(Selected(scores, topK, ids), exp);
    var filtered := probs;
    if topP < 1.0 {
      var m := NucleusKeepsShortestPrefix(probs, order, topP);
      filtered := Nucleus(probs, order, topP);
    }
    if 0 < topK < |logits| {
      ScatterOntoZeros(|logits|, ids, filtered);
      var r := Scatter(Zeros(|logits|), ids, filtered);
      forall t | 0 <= t < |logits| ensures r[t] >= 0.0 {
        if t in ids {
          var i :| 0 <= i < |ids| && ids[i] == t;
        }
      }
    }
  }
}
