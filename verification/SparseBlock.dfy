/**
 * Verification against the rows of a top-k draft: candidates and their probabilities. The code's sparse branch
 * computes what the dense branch would on the full rows, so a block drafted from candidates has the target's law.
 */
module SparseBlock {
  import opened AcceptedPrefix
  import opened DecodeLimits
  import opened Distribution
  import opened RealArithmetic
  import opened RejectionSampling
  import opened SampledGenerate
  import opened SpeculativeBlock

  ghost predicate AreSparse(rows: seq<Sparse>, n: nat) {
    forall i :: 0 <= i < |rows| ==> rows[i].Valid(n)
  }

  ghost function DenseRows(rows: seq<Sparse>, n: nat): (r: seq<seq<real>>)
    requires AreSparse(rows, n)
    ensures |r| == |rows|
  {
    seq(|rows|, i requires 0 <= i < |rows| => Dense(rows[i], n))
  }

  lemma DenseRowsAreLaws(rows: seq<Sparse>, n: nat)
    requires AreSparse(rows, n)
    ensures AreLaws(DenseRows(rows, n), n)
  {
    forall i | 0 <= i < |rows| ensures IsLaw(DenseRows(rows, n)[i], n) {
      SparseDrawIsDense(rows[i], n, Zeros(n));
    }
  }

  // ---------------------------------------------------------------- the sparse branch

  /** The probabilities of the drafted tokens: a masked sum per row. */
  function MaskedMasses(rows: seq<Sparse>, x: seq<Token>): (r: seq<real>)
    requires |x| == |rows| && forall i :: 0 <= i < |rows| ==> |rows[i].ids| == |rows[i].w|
    ensures |r| == |x|
  {
    seq(|x|, i requires 0 <= i < |x| => MaskedMass(rows[i].ids, rows[i].w, x[i]))
  }

  /** The residual with scatter-add, clamp, clamped divisor and fallback. */
  function SparseResidual(p: seq<real>, s: Sparse, tiny: real): (r: seq<real>)
    requires |s.ids| == |s.w| && InVocabulary(s.ids, |p|) && tiny > 0.0
    ensures |r| == |p|
  {
    var r := SparsePositivePart(p, s);
    var total := Sum(r);
    if total > 0.0 then Scale(r, Inverse(if total > tiny then total else tiny)) else p
  }

  lemma SparseResidualIsDense(p: seq<real>, s: Sparse, tiny: real)
    requires p != [] && |s.ids| == |s.w| && InVocabulary(s.ids, |p|) && tiny > 0.0
    ensures SparseResidual(p, s, tiny) == ResidualWeights(p, Dense(s, |p|), tiny)
  {
    hide Sum, Scale, Inverse;
    SparseRowIsDense(p, s, 0);
  }

  lemma LawNonEmpty(p: seq<real>)
    requires IsLaw(p, |p|)
    ensures p != []
  {}

  /** The accepted count and the law of the bonus token. */
  function SparseRejectionSample(u: seq<real>, x: seq<Token>, p: seq<seq<real>>, q: seq<Sparse>, n: nat, tiny: real)
    : (r: (nat, seq<real>))
    requires |u| == |x| == |q| && |p| == |q| + 1 && AreLaws(p, n) && AreSparse(q, n)
    requires InVocabulary(x, n) && tiny > 0.0
    ensures r.0 <= |x|
  {
    var flags := AcceptFlags(u, MaskedMasses(q, x), Gather(p, x, n));
    AcceptedLengthIsLongestPrefix(flags);
    (AcceptedLength(flags), SparseBonusLaw(p, q, AcceptedLength(flags), n, tiny))
  }

  function SparseBonusLaw(p: seq<seq<real>>, q: seq<Sparse>, k: nat, n: nat, tiny: real): (r: seq<real>)
    requires |p| == |q| + 1 && k <= |q| && AreLaws(p, n) && AreSparse(q, n) && tiny > 0.0
    ensures |r| == n
  {
    if k == |q| then MultinomialLaw(p[k])
    else
      LawNonEmpty(p[k]);
      SparseResidualIsDense(p[k], q[k], tiny);
      ResidualSamplable(p[k], Dense(q[k], n), tiny);
      MultinomialLaw(SparseResidual(p[k], q[k], tiny))
  }

  lemma SparseBonusIsDense(p: seq<seq<real>>, q: seq<Sparse>, k: nat, n: nat, tiny: real)
    requires |p| == |q| + 1 && k <= |q| && AreLaws(p, n) && AreSparse(q, n) && tiny > 0.0
    ensures AreLaws(DenseRows(q, n), n) && SparseBonusLaw(p, q, k, n, tiny) == BlockBonusLaw(p, DenseRows(q, n), k, n, tiny)
  {
    hide Sum, SparseResidual, ResidualWeights, MultinomialLaw;
    DenseRowsAreLaws(q, n);
    if k < |q| {
      LawNonEmpty(p[k]);
      SparseResidualIsDense(p[k], q[k], tiny);
    }
  }

  lemma MaskedMassesAreDense(q: seq<Sparse>, x: seq<Token>, n: nat)
    requires |x| == |q| && AreSparse(q, n) && InVocabulary(x, n)
    ensures MaskedMasses(q, x) == Gather(DenseRows(q, n), x, n)
  {
    forall i | 0 <= i < |x| ensures MaskedMass(q[i].ids, q[i].w, x[i]) == Dense(q[i], n)[x[i]] {
      SparseRowIsDense(Zeros(n), q[i], x[i]);
    }
  }

  /** The sparse branch returns what the dense branch returns on the full rows, repeated candidates included. */
  lemma SparseSampleIsDense(u: seq<real>, x: seq<Token>, p: seq<seq<real>>, q: seq<Sparse>, n: nat, tiny: real)
    requires |u| == |x| == |q| && |p| == |q| + 1 && AreLaws(p, n) && AreSparse(q, n)
    requires InVocabulary(x, n) && tiny > 0.0
    ensures AreLaws(DenseRows(q, n), n)
    ensures SparseRejectionSample(u, x, p, q, n, tiny) == RejectionSample(u, x, p, DenseRows(q, n), n, tiny)
  {
    hide SparseBonusLaw, BlockBonusLaw, MaskedMasses, DenseRows, AcceptFlags, Gather, IsLaw, Sum;
    DenseRowsAreLaws(q, n);
    MaskedMassesAreDense(q, x, n);
    SparseBonusIsDense(p, q, SparseRejectionSample(u, x, p, q, n, tiny).0, n, tiny);
  }

  // ---------------------------------------------------------------- a block drafted from candidates

  /** As `Block`, the draft proposing one of its candidates after every drafted prefix. */
  datatype CandidateBlock = CandidateBlock(n: nat, gamma: nat, target: Kernel, draft: seq<Token> -> Sparse,
                                           value: seq<Token> -> real, tiny: real) {

    ghost predicate Valid() {
      && tiny > 0.0
      && (forall x :: IsLaw(target(x), n))
      && (forall x :: draft(x).Valid(n))
    }

    /** The block that drafts from the full rows. */
    ghost function Full(): (b: Block)
      requires Valid()
      ensures b.Valid() && b.n == n && b.gamma == gamma
    {
      var full: Kernel := x => Dense(draft(x), n);
      assert forall x :: IsLaw(full(x), n) by {
        forall x ensures IsLaw(full(x), n) { SparseDrawIsDense(draft(x), n, Zeros(n)); }
      }
      Block(n, gamma, target, full, value, tiny)
    }

    ghost function Candidates(x: seq<Token>): (q: seq<Sparse>)
      requires Valid()
      ensures |q| == |x| && AreSparse(q, n)
    {
      seq(|x|, i requires 0 <= i < |x| => draft(x[..i]))
    }

    /** Expected score of verifying `x`: acceptance probabilities and bonus laws of the sparse branch. */
    ghost function Verified(x: seq<Token>): real
      requires Valid() && InVocabulary(x, n)
    {
      var p, q := Full().TargetRows(x), Candidates(x);
      var m := MaskedMasses(q, x);
      Expected(seq(|x|, i requires 0 <= i < |x| => AcceptProbability(p[i][x[i]], m[i])),
               seq(|x| + 1, k requires 0 <= k <= |x| => Dot(SparseBonusLaw(p, q, k, n, tiny), Full().Next(x[..k]))))
    }

    /** Expected score of drafting the rest of the block after `x`, one candidate at a time, and verifying it. */
    ghost function Drafted(x: seq<Token>): real
      requires Valid() && InVocabulary(x, n) && |x| <= gamma
      decreases gamma - |x|
    {
      if |x| == gamma then Verified(x) else Dot(draft(x).w, DraftedNext(x))
    }

    ghost function DraftedNext(x: seq<Token>): (v: seq<real>)
      requires Valid() && InVocabulary(x, n) && |x| < gamma
      ensures |v| == |draft(x).w|
      decreases gamma - |x|, 0
    {
      var s := draft(x);
      assert s.Valid(n);
      seq(|s.w|, j requires 0 <= j < |s.w| => Drafted(x + [s.ids[j]]))
    }

    lemma VerifiedIsFull(x: seq<Token>)
      requires Valid() && InVocabulary(x, n)
      ensures Verified(x) == Full().Verified(x, 0)
    {
      hide Expected, Dot, SparseBonusLaw, BlockBonusLaw, AcceptProbability, Block.Next, Sum;
      var b, p, q := Full(), Full().TargetRows(x), Candidates(x);
      assert b.DraftRows(x) == DenseRows(q, n);
      MaskedMassesAreDense(q, x, n);
      assert b.Acceptance(x)[0..] == b.Acceptance(x) && b.BonusValues(x)[0..] == b.BonusValues(x);
      forall k: nat | k <= |x| ensures SparseBonusLaw(p, q, k, n, tiny) == BlockBonusLaw(p, b.DraftRows(x), k, n, tiny) {
        SparseBonusIsDense(p, q, k, n, tiny);
      }
      assert b.Acceptance(x) == seq(|x|, i requires 0 <= i < |x| => AcceptProbability(p[i][x[i]], MaskedMasses(q, x)[i]));
      assert b.BonusValues(x)
          == seq(|x| + 1, k requires 0 <= k <= |x| => Dot(SparseBonusLaw(p, q, k, n, tiny), b.Next(x[..k])));
    }

    lemma {:induction false} DraftedIsFull(x: seq<Token>)
      requires Valid() && InVocabulary(x, n) && |x| <= gamma
      ensures Drafted(x) == Full().Drafted(x, 0)
      decreases gamma - |x|
    {
      hide Dot, Verified, Block.Verified, IsLaw;
      if |x| == gamma {
        VerifiedIsFull(x);
      } else {
        var s, v := draft(x), Full().DraftedNext(x, 0);
        assert s.Valid(n);
        forall j | 0 <= j < |s.w| ensures DraftedNext(x)[j] == v[s.ids[j]] { DraftedIsFull(x + [s.ids[j]]); }
        assert DraftedNext(x) == seq(|s.w|, j requires 0 <= j < |s.w| => v[s.ids[j]]);
        SparseDrawIsDense(s, n, v);
      }
    }

    /** Drafting candidates, verifying them and drawing the bonus token scores like drawing from the target alone. */
    lemma Exact()
      requires Valid() && Full().Harmonic()
      ensures Drafted([]) == Full().TargetValue([])
    {
      hide Drafted, Block.Drafted, Block.TargetValue, Block.Harmonic;
      DraftedIsFull([]);
      Full().Exact([]);
    }
  }

  // ---------------------------------------------------------------- blocks that agree

  /** The same block up to the choice of functions; the empty emission is never scored. */
  ghost predicate Agree(a: Block, b: Block) {
    && a.n == b.n && a.gamma == b.gamma && a.tiny == b.tiny
    && (forall y :: a.target(y) == b.target(y)) && (forall y :: a.draft(y) == b.draft(y))
    && (forall y :: y != [] ==> a.value(y) == b.value(y))
  }

  lemma {:induction false} BlocksAgree(a: Block, b: Block, x: seq<Token>)
    requires a.Valid() && b.Valid() && Agree(a, b) && InVocabulary(x, a.n) && |x| <= a.gamma
    ensures a.Drafted(x, 0) == b.Drafted(x, 0)
    decreases a.gamma - |x|
  {
    hide Dot, IsLaw, Expected, Block.BonusValue, Sum;
    if |x| == a.gamma {
      SameVerified(a, b, x);
    } else {
      forall t | 0 <= t < a.n ensures a.DraftedNext(x, 0)[t] == b.DraftedNext(x, 0)[t] { BlocksAgree(a, b, x + [t]); }
      assert a.DraftedNext(x, 0) == b.DraftedNext(x, 0) && a.draft(x) == b.draft(x);
    }
  }

  lemma SameVerified(a: Block, b: Block, x: seq<Token>)
    requires a.Valid() && b.Valid() && Agree(a, b) && InVocabulary(x, a.n)
    ensures a.Verified(x, 0) == b.Verified(x, 0)
  {
    hide Dot, IsLaw, Expected, AcceptanceRow, BlockBonusLaw, Sum;
    assert a.TargetRows(x) == b.TargetRows(x) && a.DraftRows(x) == b.DraftRows(x);
    forall k: nat | k <= |x| ensures a.BonusValue(x, k) == b.BonusValue(x, k) { assert a.Next(x[..k]) == b.Next(x[..k]); }
    assert a.BonusValues(x) == b.BonusValues(x);
  }

  // ---------------------------------------------------------------- the whole run

  /** As `Run`, the draft of every round proposing candidates. */
  datatype CandidateRun = CandidateRun(n: nat, limits: Limits, target: Kernel, draft: (seq<Token>, nat, seq<Token>) -> Sparse,
                                       payoff: seq<Token> -> real, tiny: real) {

    ghost predicate Valid() {
      && tiny > 0.0 && limits.blockSize >= 1
      && (forall s :: IsLaw(target(s), n))
      && (forall s, k, x :: draft(s, k, x).Valid(n))
    }

    /** The run that drafts from the full rows. */
    ghost function Full(): (r: Run)
      requires Valid()
      ensures r.Valid() && r.n == n && r.limits == limits && r.target == target && r.payoff == payoff
    {
      var full: DraftKernel := (s: seq<Token>, k: nat, x: seq<Token>) => Dense(draft(s, k, x), n);
      assert forall s, k, x :: IsLaw(full(s, k, x), n) by {
        forall s, k, x ensures IsLaw(full(s, k, x), n) { SparseDrawIsDense(draft(s, k, x), n, Zeros(n)); }
      }
      Run(n, limits, target, full, payoff, tiny)
    }

    /** The block of the round that starts with the text `s`; the rounds after it draft candidates again. */
    ghost function Round(s: seq<Token>): (c: CandidateBlock)
      requires Valid() && s != [] && !limits.Finished(s)
      ensures c.Valid()
      decreases limits.maxLength - |s|, 0
    {
      var size := limits.VerifySize(s);
      CandidateBlock(n, size - 1, x => target(s + x), x => draft(s, size, x),
                     y => if y == [] then 0.0 else RunValue(limits.Committed(s, y)), tiny)
    }

    /** Expected score of the loop from the text `s`. */
    ghost function RunValue(s: seq<Token>): real
      requires Valid() && s != []
      decreases limits.maxLength - |s|, 1
    {
      if limits.Finished(s) then payoff(limits.Trim(s)) else Round(s).Drafted([])
    }

    /** Prefill draws the first token from the target, then the loop runs. */
    ghost function GenerateValue(prompt: seq<Token>): real
      requires Valid()
    {
      Dot(target(prompt), seq(n, t requires 0 <= t < n => RunValue(prompt + [t])))
    }

    /** From every text, drafting candidates in every round scores like drafting from the full rows. */
    lemma {:induction false} RunIsFull(s: seq<Token>)
      requires Valid() && s != []
      ensures RunValue(s) == Full().RunValue(s)
      decreases limits.maxLength - |s|
    {
      hide CandidateBlock.Drafted, Block.Drafted, IsLaw, Round, Full, Run.Round;
      if !limits.Finished(s) {
        var a, b := Round(s).Full(), Full().Round(s);
        forall y | y != [] ensures a.value(y) == b.value(y) {
          RoundScores(s, y);
          RunIsFull(limits.Committed(s, y));
        }
        SameShape(s);
        Round(s).DraftedIsFull([]);
        BlocksAgree(a, b, []);
      }
    }

    lemma RoundScores(s: seq<Token>, y: seq<Token>)
      requires Valid() && s != [] && !limits.Finished(s) && y != []
      ensures |limits.Committed(s, y)| > |s|
      ensures Round(s).Full().value(y) == RunValue(limits.Committed(s, y))
      ensures Full().Round(s).value(y) == Full().RunValue(limits.Committed(s, y))
    {
      hide RunValue, Run.RunValue, IsLaw;
    }

    lemma SameShape(s: seq<Token>)
      requires Valid() && s != [] && !limits.Finished(s)
      ensures var a, b := Round(s).Full(), Full().Round(s);
        && a.n == b.n && a.gamma == b.gamma && a.tiny == b.tiny
        && (forall y :: a.target(y) == b.target(y)) && (forall y :: a.draft(y) == b.draft(y))
    {
      hide RunValue, Run.RunValue, IsLaw;
    }

    /** The output of a run that drafts candidates in every round has the law of plain sampling from the target. */
    lemma CandidateOutputHasTargetLaw(prompt: seq<Token>)
      requires Valid() && |prompt| <= limits.maxLength
      ensures GenerateValue(prompt) == Full().PlainGenerateValue(prompt)
    {
      hide Dot, IsLaw, RunValue, Run.RunValue, Run.PlainGenerateValue;
      forall t: nat | t < n ensures RunValue(prompt + [t]) == Full().RunValue(prompt + [t]) { RunIsFull(prompt + [t]); }
      assert seq(n, t requires 0 <= t < n => RunValue(prompt + [t]))
          == seq(n, t requires 0 <= t < n => Full().RunValue(prompt + [t]));
      Full().SampledOutputHasTargetLaw(prompt);
    }
  }
}
