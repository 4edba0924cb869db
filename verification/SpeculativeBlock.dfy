/**
 * One speculative block: the draft proposes `gamma` tokens, each from a law that may depend on the tokens
 * proposed before it; the target verifies them. The emitted tokens (accepted prefix plus bonus) have the
 * law of autoregressive sampling from the target. Rows of a top-k draft and their dense form come along;
 * `SparseBlock` carries the theorem to drafts that draw from such rows.
 */
module SpeculativeBlock {
  import opened AcceptedPrefix
  import opened Distribution
  import opened RealArithmetic
  import opened RejectionSampling

  // ---------------------------------------------------------------- the verification step

  ghost predicate InVocabulary(x: seq<Token>, n: nat) {
    forall i :: 0 <= i < |x| ==> x[i] < n
  }

  ghost predicate AreLaws(rows: seq<seq<real>>, n: nat) {
    forall i :: 0 <= i < |rows| ==> IsLaw(rows[i], n)
  }

  /** `gather(-1, tokens)`: entry `x[i]` of row `i`. */
  function Gather(rows: seq<seq<real>>, x: seq<Token>, n: nat): (r: seq<real>)
    requires |x| <= |rows|
    requires forall i :: 0 <= i < |x| ==> x[i] < n && |rows[i]| == n
    ensures |r| == |x|
  {
    seq(|x|, i requires 0 <= i < |x| => rows[i][x[i]])
  }

  /** The law of the bonus token after `k` acceptances. */
  function BlockBonusLaw(p: seq<seq<real>>, q: seq<seq<real>>, k: nat, n: nat, tiny: real): (r: seq<real>)
    requires |p| == |q| + 1 && k <= |q| && AreLaws(p, n) && AreLaws(q, n) && tiny > 0.0
    ensures |r| == n
  {
    if k == |q| then MultinomialLaw(p[k]) else BonusLaw(p[k], q[k], tiny)
  }

  /** It is a law. */
  lemma BonusIsLaw(p: seq<seq<real>>, q: seq<seq<real>>, k: nat, n: nat, tiny: real)
    requires |p| == |q| + 1 && k <= |q| && AreLaws(p, n) && AreLaws(q, n) && tiny > 0.0
    ensures var law := BlockBonusLaw(p, q, k, n, tiny); |law| == n && NonNegative(law) && Sum(law) == 1.0
  {
    hide Sum, MultinomialLaw, PositivePart, Times, Inverse;
    if k == |q| {
      MultinomialIsLaw(p[k]);
    } else {
      ResidualSamplable(p[k], q[k], tiny);
      ResidualNonNegative(p[k], q[k], tiny);
      MultinomialIsLaw(ResidualWeights(p[k], q[k], tiny));
    }
  }

  lemma ResidualNonNegative(p: seq<real>, q: seq<real>, tiny: real)
    requires NonNegative(p) && |p| == |q| && tiny > 0.0
    ensures NonNegative(ResidualWeights(p, q, tiny))
  {
    hide Sum, Times, Inverse, PositivePart;
    var r := PositivePart(p, q);
    forall t | 0 <= t < |r| ensures r[t] >= 0.0 { PositivePartAt(p, q, t); }
    var d := if Sum(r) > tiny then Sum(r) else tiny;
    InverseLaw(d);
    forall t | 0 <= t < |r| ensures Times(r[t], Inverse(d)) >= 0.0 { NonNegativeProduct(r[t], Inverse(d)); }
  }

  /** The accepted count and the law of the bonus token for the uniforms `u`. */
  function RejectionSample(u: seq<real>, x: seq<Token>, p: seq<seq<real>>, q: seq<seq<real>>, n: nat, tiny: real)
    : (r: (nat, seq<real>))
    requires |u| == |x| == |q| && |p| == |q| + 1 && AreLaws(p, n) && AreLaws(q, n)
    requires InVocabulary(x, n) && tiny > 0.0
    ensures r.0 <= |x|
  {
    var flags := AcceptFlags(u, Gather(q, x, n), Gather(p, x, n));
    AcceptedLengthIsLongestPrefix(flags);
    var accepted := AcceptedLength(flags);
    (accepted, BlockBonusLaw(p, q, accepted, n, tiny))
  }

  /** Acceptance probabilities of the drafted tokens `x`. */
  function AcceptanceRow(x: seq<Token>, p: seq<seq<real>>, q: seq<seq<real>>, n: nat): (a: seq<real>)
    requires |x| == |q| && |p| == |q| + 1 && AreLaws(p, n) && AreLaws(q, n) && InVocabulary(x, n)
    ensures |a| == |x|
  {
    seq(|x|, i requires 0 <= i < |x| => AcceptProbability(p[i][x[i]], q[i][x[i]]))
  }

  /** The uniforms that make the code accept `k` tokens form the box whose volume is entry `k` of the count law. */
  lemma RejectionSampleEvent(u: seq<real>, x: seq<Token>, p: seq<seq<real>>, q: seq<seq<real>>, n: nat, tiny: real, k: nat)
    requires |u| == |x| == |q| && |p| == |q| + 1 && AreLaws(p, n) && AreLaws(q, n)
    requires InVocabulary(x, n) && tiny > 0.0 && k <= |x|
    requires forall i :: 0 <= i < |u| ==> 0.0 <= u[i] < 1.0
    ensures var a := AcceptanceRow(x, p, q, n);
      && CountLaw(a)[k] == Volume(CountBox(a, k))
      && (RejectionSample(u, x, p, q, n, tiny) == (k, BlockBonusLaw(p, q, k, n, tiny))
          <==> forall i :: 0 <= i < |u| ==> CountBox(a, k)[i].Contains(u[i]))
  {
    CountEvent(u, Gather(q, x, n), Gather(p, x, n), AcceptanceRow(x, p, q, n), k);
  }

  // ---------------------------------------------------------------- sparse candidate rows

  /** The probabilities of the candidates `ids`. */
  datatype Sparse = Sparse(ids: seq<Token>, w: seq<real>) {
    ghost predicate Valid(n: nat) { |ids| == |w| && InVocabulary(ids, n) && IsLaw(w, |w|) }
  }

  /** `(probs * (ids == token)).sum(-1)` */
  function MaskedMass(ids: seq<Token>, w: seq<real>, token: Token): real
    requires |ids| == |w|
  {
    if ids == [] then 0.0 else (if ids[0] == token then w[0] else 0.0) + MaskedMass(ids[1..], w[1..], token)
  }

  /** `scatter_add_(0, ids, sign * w)` on a row; repeated ids accumulate. */
  function ScatterAdd(row: seq<real>, ids: seq<Token>, w: seq<real>, sign: real): (r: seq<real>)
    requires |ids| == |w| && InVocabulary(ids, |row|)
    ensures |r| == |row|
    decreases |ids|
  {
    if ids == [] then row
    else ScatterAdd(row[ids[0] := row[ids[0]] + (if sign < 0.0 then -w[0] else w[0])], ids[1..], w[1..], sign)
  }

  lemma {:induction false} ScatterAddAt(row: seq<real>, ids: seq<Token>, w: seq<real>, sign: real, t: Token)
    requires |ids| == |w| && InVocabulary(ids, |row|) && t < |row|
    ensures ScatterAdd(row, ids, w, sign)[t]
         == row[t] + (if sign < 0.0 then -MaskedMass(ids, w, t) else MaskedMass(ids, w, t))
    decreases |ids|
  {
    if ids != [] {
      ScatterAddAt(row[ids[0] := row[ids[0]] + (if sign < 0.0 then -w[0] else w[0])], ids[1..], w[1..], sign, t);
    }
  }

  function Zeros(n: nat): (r: seq<real>)
    ensures |r| == n
  {
    seq(n, _ => 0.0)
  }

  /** The full row a sparse row stands for. */
  function Dense(s: Sparse, n: nat): (r: seq<real>)
    requires |s.ids| == |s.w| && InVocabulary(s.ids, n)
    ensures |r| == n
  {
    ScatterAdd(Zeros(n), s.ids, s.w, 1.0)
  }

  /** The residual of a sparse row before normalisation: scatter-add of the negated row, then the clamp. */
  function SparsePositivePart(p: seq<real>, s: Sparse): (r: seq<real>)
    requires |s.ids| == |s.w| && InVocabulary(s.ids, |p|)
    ensures |r| == |p|
  {
    var d := ScatterAdd(p, s.ids, s.w, -1.0);
    seq(|d|, t requires 0 <= t < |d| => Positive(d[t]))
  }

  lemma {:induction false} PositivePartAt(p: seq<real>, q: seq<real>, t: nat)
    requires |p| == |q| && t < |p|
    ensures PositivePart(p, q)[t] == Positive(p[t] - q[t])
  {
    if t > 0 { PositivePartAt(p[1..], q[1..], t - 1); }
  }

  /** Acceptance mass and residual of a sparse row are those of the full row, repeated ids included. */
  lemma SparseRowIsDense(p: seq<real>, s: Sparse, token: Token)
    requires |s.ids| == |s.w| && InVocabulary(s.ids, |p|) && token < |p|
    ensures MaskedMass(s.ids, s.w, token) == Dense(s, |p|)[token]
    ensures SparsePositivePart(p, s) == PositivePart(p, Dense(s, |p|))
  {
    ScatterAddAt(Zeros(|p|), s.ids, s.w, 1.0, token);
    forall t | 0 <= t < |p| ensures SparsePositivePart(p, s)[t] == PositivePart(p, Dense(s, |p|))[t] {
      ScatterAddAt(p, s.ids, s.w, -1.0, t);
      ScatterAddAt(Zeros(|p|), s.ids, s.w, 1.0, t);
      PositivePartAt(p, Dense(s, |p|), t);
    }
  }

  lemma {:induction false} AbsentMass(ids: seq<Token>, w: seq<real>, t: Token)
    requires |ids| == |w| && t !in ids
    ensures MaskedMass(ids, w, t) == 0.0
  {
    if ids != [] { AbsentMass(ids[1..], w[1..], t); }
  }

  /** Drawing a candidate from a sparse row draws a token from the full row, and the full row is a law. */
  lemma SparseDrawIsDense(s: Sparse, n: nat, v: seq<real>)
    requires s.Valid(n) && |v| == n
    ensures IsLaw(Dense(s, n), n)
    ensures Dot(s.w, seq(|s.w|, j requires 0 <= j < |s.w| => v[s.ids[j]])) == Dot(Dense(s, n), v)
  {
    hide Times;
    forall t | 0 <= t < n ensures Dense(s, n)[t] >= 0.0 {
      ScatterAddAt(Zeros(n), s.ids, s.w, 1.0, t);
      MaskedNonNegative(s.ids, s.w, t);
    }
    var c := seq(|s.w|, j requires 0 <= j < |s.w| => v[s.ids[j]]);
    ScatterAddAverage(Zeros(n), s.ids, s.w, v, c);
    DotZero(Zeros(n), v);
    ZeroSum(n);
  }

  lemma {:induction false} ZeroSum(n: nat)
    ensures Sum(Zeros(n)) == 0.0
  {
    if n > 0 {
      ZeroSum(n - 1);
      assert Zeros(n)[1..] == Zeros(n - 1);
    }
  }

  lemma {:induction false} MaskedNonNegative(ids: seq<Token>, w: seq<real>, t: Token)
    requires |ids| == |w| && NonNegative(w)
    ensures MaskedMass(ids, w, t) >= 0.0
  {
    if ids != [] { MaskedNonNegative(ids[1..], w[1..], t); }
  }

  lemma {:induction false} ScatterAddAverage(row: seq<real>, ids: seq<Token>, w: seq<real>, v: seq<real>, c: seq<real>)
    requires |ids| == |w| == |c| && InVocabulary(ids, |row|) && |v| == |row|
    requires forall j :: 0 <= j < |c| ==> c[j] == v[ids[j]]
    ensures Sum(ScatterAdd(row, ids, w, 1.0)) == Sum(row) + Sum(w)
    ensures Dot(ScatterAdd(row, ids, w, 1.0), v) == Dot(row, v) + Dot(w, c)
    decreases |ids|
  {
    hide Times;
    if ids != [] {
      UpdateEntry(row, ids[0], w[0], v);
      ScatterAddAverage(row[ids[0] := row[ids[0]] + w[0]], ids[1..], w[1..], v, c[1..]);
    }
  }

  /** Adding `x` to entry `k` adds `x` to the sum and `x * v[k]` to every average. */
  lemma {:induction false} UpdateEntry(w: seq<real>, k: nat, x: real, v: seq<real>)
    requires k < |w| == |v|
    ensures Sum(w[k := w[k] + x]) == Sum(w) + x
    ensures Dot(w[k := w[k] + x], v) == Dot(w, v) + Times(x, v[k])
  {
    hide Times;
    var u := w[k := w[k] + x];
    if k == 0 {
      AddLeft(w[0], x, v[0]);
      assert u[1..] == w[1..];
    } else {
      UpdateEntry(w[1..], k - 1, x, v[1..]);
      assert u[1..] == w[1..][k - 1 := w[1..][k - 1] + x];
    }
  }

  // ---------------------------------------------------------------- exactness of a block

  type Kernel = seq<Token> -> seq<real>

  /**
   * A block of `gamma` drafted tokens after some context. `target` and `draft` give the next-token law after
   * the drafted prefix; `value` scores the emitted tokens.
   */
  datatype Block = Block(n: nat, gamma: nat, target: Kernel, draft: Kernel, value: seq<Token> -> real, tiny: real) {

    ghost predicate Valid() {
      && tiny > 0.0
      && (forall x :: IsLaw(target(x), n))
      && (forall x :: IsLaw(draft(x), n))
    }

    /** The scores after one more token. */
    ghost function Next(x: seq<Token>): (v: seq<real>)
      ensures |v| == n
    {
      seq(n, t requires 0 <= t < n => value(x + [t]))
    }

    /** Expected score of emitting `x` and one token from the target. */
    ghost function TargetValue(x: seq<Token>): real
      requires Valid()
    {
      Dot(target(x), Next(x))
    }

    ghost function TargetRows(x: seq<Token>): (p: seq<seq<real>>)
      requires Valid()
      ensures |p| == |x| + 1 && AreLaws(p, n)
    {
      seq(|x| + 1, i requires 0 <= i <= |x| => target(x[..i]))
    }

    ghost function DraftRows(x: seq<Token>): (q: seq<seq<real>>)
      requires Valid()
      ensures |q| == |x| && AreLaws(q, n)
    {
      seq(|x|, i requires 0 <= i < |x| => draft(x[..i]))
    }

    ghost function Acceptance(x: seq<Token>): (a: seq<real>)
      requires Valid() && InVocabulary(x, n)
      ensures |a| == |x|
    {
      AcceptanceRow(x, TargetRows(x), DraftRows(x), n)
    }

    /** Expected score after exactly `k` acceptances. */
    ghost function BonusValue(x: seq<Token>, k: nat): real
      requires Valid() && k <= |x|
    {
      Dot(BlockBonusLaw(TargetRows(x), DraftRows(x), k, n, tiny), Next(x[..k]))
    }

    ghost function BonusValues(x: seq<Token>): (out: seq<real>)
      requires Valid()
      ensures |out| == |x| + 1
    {
      seq(|x| + 1, k requires 0 <= k <= |x| => BonusValue(x, k))
    }

    /** Expected score of verifying the drafted tokens `x`, the first `i` already accepted. */
    ghost function Verified(x: seq<Token>, i: nat): real
      requires Valid() && InVocabulary(x, n) && i <= |x|
    {
      Expected(Acceptance(x)[i..], BonusValues(x)[i..])
    }

    /** Expected score of drafting the rest of the block after `x` and verifying from position `i` on. */
    ghost function Drafted(x: seq<Token>, i: nat): real
      requires Valid() && InVocabulary(x, n) && i <= |x| <= gamma
      decreases gamma - |x|
    {
      if |x| == gamma then Verified(x, i)
      else Dot(draft(x), DraftedNext(x, i))
    }

    ghost function DraftedNext(x: seq<Token>, i: nat): (v: seq<real>)
      requires Valid() && InVocabulary(x, n) && i <= |x| < gamma
      ensures |v| == n
      decreases gamma - |x|, 0
    {
      seq(n, t requires 0 <= t < n => Drafted(x + [t], i))
    }

    /** `value` already averages over the target's next token after every emitted text. */
    ghost predicate Harmonic() {
      Valid() && forall x :: 0 < |x| <= gamma && InVocabulary(x, n) ==> HarmonicAt(x)
    }

    ghost predicate HarmonicAt(x: seq<Token>)
      requires Valid()
    {
      value(x) == TargetValue(x)
    }

    lemma VerifiedStep(x: seq<Token>, i: nat)
      requires Valid() && InVocabulary(x, n) && i < |x|
      ensures Verified(x, i)
           == Times(Acceptance(x)[i], Verified(x, i + 1)) + Times(1.0 - Acceptance(x)[i], BonusValue(x, i))
    {
      hide Times, Expected;
      ExpectedStep(Acceptance(x)[i..], BonusValues(x)[i..]);
      assert Acceptance(x)[i..][1..] == Acceptance(x)[i + 1..];
      assert BonusValues(x)[i..][1..] == BonusValues(x)[i + 1..];
    }

    lemma VerifiedAll(x: seq<Token>)
      requires Valid() && InVocabulary(x, n)
      ensures Verified(x, |x|) == TargetValue(x)
    {
      hide Times, Expected, MultinomialLaw, BonusLaw;
      ExpectedEmpty(BonusValue(x, |x|));
      assert Acceptance(x)[|x|..] == [] && BonusValues(x)[|x|..] == [BonusValue(x, |x|)];
      assert x[..|x|] == x;
      MultinomialOfLaw(target(x));
    }

    /** Acceptance and bonus of position `i` depend on the first `i + 1` drafted tokens only. */
    lemma PrefixDecides(x: seq<Token>, y: seq<Token>, i: nat)
      requires Valid() && InVocabulary(x, n) && InVocabulary(y, n)
      requires i < |x| <= |y| && y[..|x|] == x
      ensures Acceptance(x)[i] == Acceptance(y)[i] && BonusValue(x, i) == BonusValue(y, i)
    {
      assert x[..i] == y[..i];
    }

    /** Conditioning on the decision at position `i`, which the drafted prefix fixes. */
    lemma {:induction false} DraftedStep(x: seq<Token>, i: nat)
      requires Valid() && InVocabulary(x, n) && i < |x| <= gamma
      ensures Drafted(x, i)
           == Times(Acceptance(x)[i], Drafted(x, i + 1)) + Times(1.0 - Acceptance(x)[i], BonusValue(x, i))
      decreases gamma - |x|
    {
      hide Times, Acceptance, BonusValue, Verified, Dot, Sum;
      if |x| == gamma {
        VerifiedStep(x, i);
      } else {
        var a, b := Acceptance(x)[i], Times(1.0 - Acceptance(x)[i], BonusValue(x, i));
        forall t | 0 <= t < n
          ensures DraftedNext(x, i)[t] == Times(a, DraftedNext(x, i + 1)[t]) + b
        {
          DraftedStep(x + [t], i);
          PrefixDecides(x, x + [t], i);
        }
        DotMix(draft(x), DraftedNext(x, i), DraftedNext(x, i + 1), a, b);
        Unit(b);
      }
    }

    /** What decides position `|x|` when the draft continues `x` by `t`. */
    lemma Decision(x: seq<Token>, t: Token)
      requires Valid() && InVocabulary(x, n) && t < n
      ensures Acceptance(x + [t])[|x|] == AcceptProbability(target(x)[t], draft(x)[t])
      ensures BonusValue(x + [t], |x|) == Dot(BonusLaw(target(x), draft(x), tiny), Next(x))
    {
      hide Dot, BonusLaw, AcceptProbability, Next;
      assert (x + [t])[..|x|] == x;
    }

    /** Score of drafting `t` after `x`: kept, or replaced by the bonus token. */
    ghost function TokenValue(x: seq<Token>, t: Token): real
      requires Valid() && t < n
    {
      var a := AcceptProbability(target(x)[t], draft(x)[t]);
      Times(a, Next(x)[t]) + Times(1.0 - a, Dot(BonusLaw(target(x), draft(x), tiny), Next(x)))
    }

    lemma DraftedToken(x: seq<Token>, t: Token)
      requires Valid() && InVocabulary(x, n) && |x| < gamma && t < n
      requires HarmonicAt(x + [t]) && Drafted(x + [t], |x| + 1) == TargetValue(x + [t])
      ensures DraftedNext(x, |x|)[t] == TokenValue(x, t)
    {
      hide Times, Dot, Sum, IsLaw, TargetValue, Drafted, BonusLaw, AcceptProbability, Acceptance, BonusValue, Next,
        DraftedNext, Valid;
      Longer(x, t);
      DraftedStep(x + [t], |x|);
      Decision(x, t);
      NextAt(x, t);
      DraftedNextAt(x, |x|, t);
    }

    lemma Longer(x: seq<Token>, t: Token)
      requires InVocabulary(x, n) && t < n
      ensures InVocabulary(x + [t], n)
    {}

    lemma DraftedNextAt(x: seq<Token>, i: nat, t: Token)
      requires Valid() && InVocabulary(x, n) && i <= |x| < gamma && t < n
      ensures InVocabulary(x + [t], n) && DraftedNext(x, i)[t] == Drafted(x + [t], i)
    {
      hide Drafted, Valid, Dot, IsLaw;
    }

    lemma NextAt(x: seq<Token>, t: Token)
      requires t < n
      ensures Next(x)[t] == value(x + [t])
    {}

    /** Drafting, verifying and drawing the bonus token scores like drawing from the target alone. */
    lemma {:induction false} Exact(x: seq<Token>)
      requires Harmonic() && InVocabulary(x, n) && |x| <= gamma
      ensures Drafted(x, |x|) == TargetValue(x)
      decreases gamma - |x|
    {
      hide Times, Dot, Sum, Verified, BonusLaw, AcceptProbability, Acceptance, BonusValue, Next, IsLaw;
      if |x| == gamma {
        VerifiedAll(x);
      } else {
        forall t | 0 <= t < n ensures DraftedNext(x, |x|)[t] == TokenValue(x, t) {
          Exact(x + [t]);
          assert HarmonicAt(x + [t]);
          DraftedToken(x, t);
        }
        OnePosition(target(x), draft(x), Next(x), DraftedNext(x, |x|), tiny);
      }
    }
  }
}
