/** The rounds of the decoding loop on given random draws are the blocks whose law `SampledGenerate` computes. */
module SampledRounds {
  import opened DecodeLimits
  import opened Distribution
  import opened GenerateLoop
  import opened InverseDraw
  import opened RejectionSampling
  import opened SampledGenerate
  import opened SpeculativeBlock

  /** The tokens the loop drafts after the text `s`. */
  function DraftedAfter<F>(m: Models<seq<real>, F>, s: seq<Token>, size: nat, round: nat): (x: seq<Token>)
    requires s != [] && size > 0
    ensures |x| == size - 1
  {
    if size > 1 then m.Drafted(m.Features([], s[..|s| - 1]), s[|s| - 1], size, round) else []
  }

  /** The target rows the loop verifies them against. */
  function RowsAfter<F>(m: Models<seq<real>, F>, s: seq<Token>, x: seq<Token>): (rows: seq<seq<real>>)
    requires s != []
    ensures |rows| == |x| + 1
  {
    m.Rows(s[..|s| - 1], [s[|s| - 1]] + x)
  }

  /**
   * If the target's rows are its laws and, on the uniforms `u`, verification returns the count of rejection
   * sampling and the token `t`, then the round emits exactly that outcome of the run's block after `s`, and the
   * block scores it by the text the loop goes on with.
   */
  lemma RoundIsBlock<F>(run: Run, m: Models<seq<real>, F>, s: seq<Token>, round: nat, u: seq<real>, t: Token)
    requires run.Valid() && m.Valid() && s != [] && !run.limits.Finished(s)
    requires forall y :: m.row(y) == run.target(y)
    requires var x := DraftedAfter(m, s, run.limits.VerifySize(s), round);
      && InVocabulary(x, run.n) && |u| == |x|
      && m.verify(RowsAfter(m, s, x), x, round)
         == (RejectionSample(u, x, run.Round(s).TargetRows(x), run.Round(s).DraftRows(x), run.n, run.tiny).0, t)
    ensures var x, e := DraftedAfter(m, s, run.limits.VerifySize(s), round), m.Emitted(s, run.limits.VerifySize(s), round);
      var b := run.Round(s);
      && |x| == b.gamma && RowsAfter(m, s, x) == b.TargetRows(x)
      && e == x[..RejectionSample(u, x, b.TargetRows(x), b.DraftRows(x), run.n, run.tiny).0] + [t]
      && b.value(e) == run.RunValue(run.limits.Committed(s, e))
  {
    hide RejectionSample, Run.RunValue, IsLaw, Run.Round, Run.Valid, Models.Decode, InVocabulary, Block.DraftRows;
    var x := DraftedAfter(m, s, run.limits.VerifySize(s), round);
    RowsAreTarget(run, m, s, x);
    RoundScores(run, s, m.Emitted(s, run.limits.VerifySize(s), round));
  }

  /**
   * Verification is rejection sampling on the uniforms `u` with the bonus token drawn by `v`. Then the round emits
   * `k` drafted tokens and the bonus `t` exactly for `u` in the box of the count `k` and `v` in the cell of `t`; the
   * box is as large as the count weight of `k`, the cell as long as the probability of `t` in the bonus law.
   */
  lemma RoundEvent<F>(run: Run, m: Models<seq<real>, F>, s: seq<Token>, round: nat, u: seq<real>, v: real, k: nat, t: Token)
    requires run.Valid() && m.Valid() && s != [] && !run.limits.Finished(s)
    requires forall y :: m.row(y) == run.target(y)
    requires 0.0 <= v < 1.0 && t < run.n && forall i :: 0 <= i < |u| ==> 0.0 <= u[i] < 1.0
    requires var x := DraftedAfter(m, s, run.limits.VerifySize(s), round);
      && InVocabulary(x, run.n) && |u| == |x| && k <= |x|
      && var r := RejectionSample(u, x, run.Round(s).TargetRows(x), run.Round(s).DraftRows(x), run.n, run.tiny);
      && |r.1| == run.n && m.verify(RowsAfter(m, s, x), x, round) == (r.0, Pick(r.1, v))
    ensures var x, e := DraftedAfter(m, s, run.limits.VerifySize(s), round), m.Emitted(s, run.limits.VerifySize(s), round);
      var a, law := run.Round(s).Acceptance(x), BlockBonusLaw(run.Round(s).TargetRows(x), run.Round(s).DraftRows(x), k, run.n, run.tiny);
      && (e == x[..k] + [t]
          <==> (forall i :: 0 <= i < |u| ==> CountBox(a, k)[i].Contains(u[i])) && Cell(law, t).Contains(v))
      && Volume(CountBox(a, k)) == CountLaw(a)[k] && Cell(law, t).hi - Cell(law, t).lo == law[t]
  {
    hide RejectionSample, Run.RunValue, IsLaw, Run.Round, Run.Valid, Models.Emitted, Cell, CountBox, BlockBonusLaw, Pick,
      Block.Valid, Block.TargetRows, Block.DraftRows, CountLaw, Volume, RowsAfter, DraftedAfter, AcceptanceRow, Sum;
    var b := run.Round(s);
    var x := DraftedAfter(m, s, run.limits.VerifySize(s), round);
    var p, q := b.TargetRows(x), b.DraftRows(x);
    TinyIsPositive(run);
    var law := BlockBonusLaw(p, q, k, run.n, run.tiny);
    var r := RejectionSample(u, x, p, q, run.n, run.tiny);
    RoundIsBlock(run, m, s, round, u, Pick(r.1, v));
    SampleShape(u, x, p, q, run.n, run.tiny);
    SameEmission(x, r.0, Pick(r.1, v), k, t);
    RejectionSampleEvent(u, x, p, q, run.n, run.tiny, k);
    BonusIsLaw(p, q, k, run.n, run.tiny);
    CellLength(law, t);
    PickEvent(law, v, t);
  }

  lemma TinyIsPositive(run: Run)
    requires run.Valid()
    ensures run.tiny > 0.0
  {}

  lemma SampleShape(u: seq<real>, x: seq<Token>, p: seq<seq<real>>, q: seq<seq<real>>, n: nat, tiny: real)
    requires |u| == |x| == |q| && |p| == |q| + 1 && AreLaws(p, n) && AreLaws(q, n)
    requires InVocabulary(x, n) && tiny > 0.0
    ensures var r := RejectionSample(u, x, p, q, n, tiny); r.1 == BlockBonusLaw(p, q, r.0, n, tiny)
  {
    hide IsLaw, BlockBonusLaw;
  }

  /** An emission determines how many drafted tokens it keeps. */
  lemma SameEmission(x: seq<Token>, a: nat, c: Token, k: nat, t: Token)
    requires a <= |x| && k <= |x|
    ensures x[..a] + [c] == x[..k] + [t] <==> a == k && c == t
  {
    if x[..a] + [c] == x[..k] + [t] {
      assert |x[..a] + [c]| == a + 1 && |x[..k] + [t]| == k + 1;
      assert (x[..a] + [c])[a] == c && (x[..k] + [t])[k] == t;
    }
  }

  lemma RowsAreTarget<F>(run: Run, m: Models<seq<real>, F>, s: seq<Token>, x: seq<Token>)
    requires run.Valid() && s != [] && !run.limits.Finished(s) && forall y :: m.row(y) == run.target(y)
    ensures RowsAfter(m, s, x) == run.Round(s).TargetRows(x)
  {
    hide Run.RunValue, IsLaw, Run.Round, Block.Valid, Run.Valid, Models.Rows, Block.TargetRows;
    var b := run.Round(s);
    forall i: nat | i <= |x| ensures RowsAfter(m, s, x)[i] == b.TargetRows(x)[i] {
      RowAt(m, s, x, i);
      TargetRowAt(b, x, i);
      RoundTarget(run, s, x[..i]);
    }
  }

  lemma RowAt<F>(m: Models<seq<real>, F>, s: seq<Token>, x: seq<Token>, i: nat)
    requires s != [] && i <= |x|
    ensures RowsAfter(m, s, x)[i] == m.row(s + x[..i])
  {
    assert s[..|s| - 1] + ([s[|s| - 1]] + x)[..i + 1] == s + x[..i];
  }

  lemma TargetRowAt(b: Block, x: seq<Token>, i: nat)
    requires b.Valid() && i <= |x|
    ensures b.TargetRows(x)[i] == b.target(x[..i])
  {
    hide Block.Valid;
  }

  lemma RoundTarget(run: Run, s: seq<Token>, y: seq<Token>)
    requires run.Valid() && s != [] && !run.limits.Finished(s)
    ensures run.Round(s).target(y) == run.target(s + y)
  {
    hide Run.RunValue, IsLaw;
  }

  lemma RoundScores(run: Run, s: seq<Token>, e: seq<Token>)
    requires run.Valid() && s != [] && !run.limits.Finished(s) && e != []
    ensures run.Round(s).gamma == run.limits.VerifySize(s) - 1
    ensures run.limits.Committed(s, e) != [] && run.Round(s).value(e) == run.RunValue(run.limits.Committed(s, e))
  {
    hide Run.RunValue, IsLaw;
  }
}
