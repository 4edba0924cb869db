/**
 * The whole sampled run of `dflash_generate`: rounds of drafting, verifying and committing until the length
 * limit or a stop token. For every score of the returned sequence (in particular the indicator of any
 * single sequence), its expectation is the one of plain token-by-token sampling from the target.
 */
module SampledGenerate {
  import opened DecodeLimits
  import opened Distribution
  import opened RealArithmetic
  import opened SpeculativeBlock

  /** Draft law given the committed tokens, the block size and the tokens drafted so far in the block. */
  type DraftKernel = (seq<Token>, nat, seq<Token>) -> seq<real>

  datatype Run = Run(n: nat, limits: Limits,
                     target: Kernel, draft: DraftKernel, payoff: seq<Token> -> real, tiny: real) {

    ghost predicate Valid() {
      && tiny > 0.0 && limits.blockSize >= 1
      && (forall s :: IsLaw(target(s), n))
      && (forall s, k, x :: IsLaw(draft(s, k, x), n))
    }

    // -------------------------------------------------------------- the two samplers

    /** The block of the round that starts with the text `s`. */
    ghost function Round(s: seq<Token>): (b: Block)
      requires Valid() && s != [] && !limits.Finished(s)
      ensures b.Valid() && b.n == n
      decreases limits.maxLength - |s|, 0
    {
      var verifySize := limits.VerifySize(s);
      Block(n, verifySize - 1, x => target(s + x), x => draft(s, verifySize, x),
            y => if y == [] then 0.0 else RunValue(limits.Committed(s, y)), tiny)
    }

    /** Expected score of the speculative loop from the text `s`. */
    ghost function RunValue(s: seq<Token>): real
      requires Valid() && s != []
      decreases limits.maxLength - |s|, 1
    {
      if limits.Finished(s) then payoff(limits.Trim(s)) else Round(s).Drafted([], 0)
    }

    /** Prefill draws the first token from the target, then the loop runs. */
    ghost function GenerateValue(prompt: seq<Token>): real
      requires Valid()
    {
      Dot(target(prompt), seq(n, t requires 0 <= t < n => RunValue(prompt + [t])))
    }

    /** Plain sampling, one target call per token, from the text `s`. */
    ghost function PlainValue(s: seq<Token>): real
      requires Valid()
      decreases limits.maxLength - |s|
    {
      if limits.Finished(s) then payoff(limits.Trim(s)) else Dot(target(s), PlainNext(s))
    }

    ghost function PlainNext(s: seq<Token>): (v: seq<real>)
      requires Valid() && !limits.Finished(s)
      ensures |v| == n
      decreases limits.maxLength - |s|, 0
    {
      seq(n, t requires 0 <= t < n => PlainValue(s + [t]))
    }

    /** Plain sampling of up to `limits.maxLength - |prompt|` new tokens; a stop token inside the prompt is no stop. */
    ghost function PlainGenerateValue(prompt: seq<Token>): real
      requires Valid()
    {
      if |prompt| >= limits.maxLength then payoff(limits.Trim(prompt))
      else Dot(target(prompt), seq(n, t requires 0 <= t < n => PlainValue(prompt + [t])))
    }

    // -------------------------------------------------------------- equality of the two laws

    /** After a finished commit the score no longer depends on further tokens. */
    lemma FinishedHarmonicAt(s: seq<Token>, y: seq<Token>)
      requires Valid() && s != [] && !limits.Finished(s) && y != [] && limits.Finished(limits.Committed(s, y))
      ensures Round(s).HarmonicAt(y)
    {
      hide Dot, Sum, Limits.Committed, Times, RunValue;
      var b := Round(s);
      forall t | 0 <= t < n ensures b.Next(y)[t] == b.value(y) {
        limits.CommitExtend(s, y, t);
      }
      DotConstant(b.target(y), b.Next(y), b.value(y));
      Unit(b.value(y));
    }

    lemma PlainStep(s: seq<Token>)
      requires Valid() && !limits.Finished(s)
      ensures PlainValue(s) == Dot(target(s), PlainNext(s))
    {}

    lemma OpenNext(s: seq<Token>, y: seq<Token>, t: Token)
      requires Valid() && s != [] && !limits.Finished(s) && y != [] && !limits.Finished(limits.Committed(s, y)) && !limits.Finished(s + y) && t < n
      requires RunValue(limits.Committed(s, y + [t])) == PlainValue(limits.Committed(s, y + [t]))
      ensures Round(s).Next(y)[t] == PlainNext(s + y)[t]
    {
      hide Limits.Committed, RunValue, PlainValue;
      limits.CommitExtend(s, y, t);
      assert s + (y + [t]) == s + y + [t];
    }

    /** Before that, the score is the plain sampler's, which averages over the target's next token. */
    lemma OpenHarmonicAt(s: seq<Token>, y: seq<Token>)
      requires Valid() && s != [] && !limits.Finished(s) && y != [] && !limits.Finished(limits.Committed(s, y))
      requires RunValue(limits.Committed(s, y)) == PlainValue(limits.Committed(s, y))
      requires forall t :: 0 <= t < n ==> RunValue(limits.Committed(s, y + [t])) == PlainValue(limits.Committed(s, y + [t]))
      ensures Round(s).HarmonicAt(y)
    {
      hide Dot, Sum, Limits.Committed, Times, RunValue, PlainValue, PlainNext;
      var b := Round(s);
      limits.CommitExtend(s, y, 0);
      forall t | 0 <= t < n ensures b.Next(y)[t] == PlainNext(s + y)[t] { OpenNext(s, y, t); }
      assert b.Next(y) == PlainNext(s + y);
      PlainStep(s + y);
    }

    /** If longer texts score like plain sampling, the round's score averages over the target's next token. */
    lemma RoundIsHarmonic(s: seq<Token>)
      requires Valid() && s != [] && !limits.Finished(s)
      requires forall r :: |s| < |r| ==> RunValue(r) == PlainValue(r)
      ensures Round(s).Harmonic()
    {
      hide Dot, Sum, Times, IsLaw, Round, RunValue, PlainValue, Block.HarmonicAt, Limits.Finished, Limits.Committed;
      var b := Round(s);
      forall y: seq<Token> | 0 < |y| <= b.gamma && InVocabulary(y, n) ensures b.HarmonicAt(y) {
        CommitGrows(s, y);
        if limits.Finished(limits.Committed(s, y)) {
          FinishedHarmonicAt(s, y);
        } else {
          forall t | 0 <= t < n
            ensures RunValue(limits.Committed(s, y + [t])) == PlainValue(limits.Committed(s, y + [t]))
          {
            CommitGrows(s, y + [t]);
          }
          OpenHarmonicAt(s, y);
        }
      }
    }

    lemma CommitGrows(s: seq<Token>, y: seq<Token>)
      requires s != [] && !limits.Finished(s) && y != []
      ensures |s| < limits.maxLength && |limits.Committed(s, y)| > |s|
    {}

    lemma RunStep(s: seq<Token>)
      requires Valid() && s != [] && !limits.Finished(s)
      ensures RunValue(s) == Round(s).Drafted([], 0)
    {}

    /** From every text, the speculative loop scores like plain sampling. */
    lemma {:induction false} RunIsPlain(s: seq<Token>)
      requires Valid() && s != []
      ensures RunValue(s) == PlainValue(s)
      decreases limits.maxLength - |s|
    {
      if !limits.Finished(s) {
        hide Dot, Sum, Times, IsLaw, Round, RunValue, PlainValue, PlainNext, Block.Harmonic, Block.Drafted, Limits.Committed;
        forall r | |s| < |r| ensures RunValue(r) == PlainValue(r) { RunIsPlain(r); }
        var b := Round(s);
        RoundIsHarmonic(s);
        RunStep(s);
        PlainStep(s);
        b.Exact([]);
        forall t: Token | t < n ensures b.Next([])[t] == PlainNext(s)[t] { FirstToken(s, t); }
        assert b.Next([]) == PlainNext(s);
        RoundTarget(s);
      }
    }

    lemma RoundTarget(s: seq<Token>)
      requires Valid() && s != [] && !limits.Finished(s)
      ensures Round(s).target([]) == target(s)
    {
      assert s + [] == s;
    }

    lemma FirstToken(s: seq<Token>, t: Token)
      requires Valid() && s != [] && !limits.Finished(s) && t < n
      requires forall r :: |s| < |r| ==> RunValue(r) == PlainValue(r)
      ensures Round(s).Next([])[t] == PlainNext(s)[t]
    {
      hide RunValue;
      assert [] + [t] == [t];
      assert limits.Committed(s, [t]) == s + [t];
    }

    /** The law of the returned sequence is the target's own, whatever the draft, block size and stop set. */
    lemma SampledOutputHasTargetLaw(prompt: seq<Token>)
      requires Valid() && |prompt| <= limits.maxLength
      ensures GenerateValue(prompt) == PlainGenerateValue(prompt)
    {
      hide Dot, Sum, Times;
      var v := seq(n, t requires 0 <= t < n => RunValue(prompt + [t]));
      forall t | 0 <= t < n ensures v[t] == PlainValue(prompt + [t]) { RunIsPlain(prompt + [t]); }
      if |prompt| == limits.maxLength {
        forall t | 0 <= t < n ensures v[t] == payoff(prompt) {
          assert (prompt + [t])[..limits.maxLength] == prompt;
        }
        DotConstant(target(prompt), v, payoff(prompt));
        Unit(payoff(prompt));
      } else {
        assert v == seq(n, t requires 0 <= t < n => PlainValue(prompt + [t]));
      }
    }
  }
}
