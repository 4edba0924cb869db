/** The sampled stream of the MLX backend: its rounds are those of `SampledGenerate`, so it has the target's law. */
module SampledStream {
  import opened DecodeLimits
  import opened Distribution
  import opened MlxGenerate
  import opened RealArithmetic
  import opened SampledGenerate
  import opened SparseBlock
  import opened SpeculativeBlock

  /** What the stream appends to `tokens` after verifying `y`. */
  function Part(tokens: seq<Token>, y: seq<Token>, eos: set<Token>, maxTokens: nat): seq<Token>
    requires |tokens| < maxTokens
  {
    CutAtEos(y[..if |y| < maxTokens - |tokens| then |y| else maxTokens - |tokens|], eos)
  }

  lemma {:induction false} CutIsStopCut(y: seq<Token>, limits: Limits)
    ensures CutAtEos(y, limits.stop) == y[..limits.StopCut(y)]
  {
    if y != [] && y[0] !in limits.stop { CutIsStopCut(y[1..], limits); }
  }

  /** The limits under which the decoding loop makes the stream's rounds. */
  function StreamLimits(prompt: seq<Token>, eos: set<Token>, blockSize: nat, maxTokens: nat): Limits {
    Limits(|prompt| + maxTokens, eos, blockSize)
  }

  /** The stream stops when the loop does, and a round of the stream verifies as many tokens. */
  lemma StreamSizes(prompt: seq<Token>, tokens: seq<Token>, eos: set<Token>, blockSize: nat, maxTokens: nat)
    requires tokens != [] && blockSize >= 2
    ensures var l, s := StreamLimits(prompt, eos, blockSize, maxTokens), prompt + tokens;
      && (l.Finished(s) <==> |tokens| >= maxTokens || tokens[|tokens| - 1] in eos)
      && (|tokens| < maxTokens ==>
           && l.VerifySize(s) == (if blockSize < maxTokens - |tokens| + 1 then blockSize else maxTokens - |tokens| + 1)
           && l.VerifySize(s) > 1)
  {}

  /** It also commits the same tokens. */
  lemma StreamCommits(prompt: seq<Token>, tokens: seq<Token>, y: seq<Token>, eos: set<Token>, blockSize: nat, maxTokens: nat)
    requires |tokens| < maxTokens
    ensures StreamLimits(prompt, eos, blockSize, maxTokens).Committed(prompt + tokens, y)
         == prompt + (tokens + Part(tokens, y, eos, maxTokens))
  {
    hide CutAtEos, Limits.StopCut;
    var l := StreamLimits(prompt, eos, blockSize, maxTokens);
    var cut := if |y| < maxTokens - |tokens| then |y| else maxTokens - |tokens|;
    CutIsStopCut(y[..cut], l);
    var k := l.StopCut(y[..cut]);
    assert y[..cut][..k] == y[..k];
    assert prompt + tokens + y[..k] == prompt + (tokens + y[..k]);
  }

  /** Expected score of the stream from the tokens emitted so far, its rounds drafting, verifying and cutting. */
  ghost function StreamValue(run: Run, prompt: seq<Token>, tokens: seq<Token>, maxTokens: nat): real
    requires run.Valid() && tokens != []
    decreases maxTokens - |tokens|
  {
    if |tokens| >= maxTokens || tokens[|tokens| - 1] in run.limits.stop then run.payoff(prompt + tokens)
    else StreamBlock(run, prompt, tokens, maxTokens).Drafted([], 0)
  }

  ghost function StreamBlock(run: Run, prompt: seq<Token>, tokens: seq<Token>, maxTokens: nat): (b: Block)
    requires run.Valid() && tokens != [] && |tokens| < maxTokens
    ensures b.Valid()
    decreases maxTokens - |tokens|, 0
  {
    var s, room := prompt + tokens, maxTokens - |tokens| + 1;
    var size := if run.limits.blockSize < room then run.limits.blockSize else room;
    Block(run.n, size - 1, x => run.target(s + x), x => run.draft(s, size, x),
          y => if y == [] then 0.0 else StreamValue(run, prompt, tokens + Part(tokens, y, run.limits.stop, maxTokens), maxTokens),
          run.tiny)
  }

  /** From any emitted tokens the stream scores like plain sampling from the target. */
  lemma {:induction false} StreamIsRun(run: Run, prompt: seq<Token>, tokens: seq<Token>, maxTokens: nat)
    requires run.Valid() && tokens != [] && |tokens| <= maxTokens && run.limits.blockSize >= 2
    requires run.limits == StreamLimits(prompt, run.limits.stop, run.limits.blockSize, maxTokens)
    ensures StreamValue(run, prompt, tokens, maxTokens) == run.RunValue(prompt + tokens)
    decreases maxTokens - |tokens|
  {
    hide Block.Drafted, Run.Round, StreamBlock, IsLaw, Part;
    StreamSizes(prompt, tokens, run.limits.stop, run.limits.blockSize, maxTokens);
    if !run.limits.Finished(prompt + tokens) {
      var a, b := StreamBlock(run, prompt, tokens, maxTokens), run.Round(prompt + tokens);
      forall y | y != [] ensures a.value(y) == b.value(y) {
        StreamScores(run, prompt, tokens, y, maxTokens);
        PartGrows(tokens, y, run.limits.stop, maxTokens);
        StreamIsRun(run, prompt, tokens + Part(tokens, y, run.limits.stop, maxTokens), maxTokens);
      }
      StreamShape(run, prompt, tokens, maxTokens);
      BlocksAgree(a, b, []);
    }
  }

  /** Both blocks score an emission by the value of the text it leads to. */
  lemma StreamScores(run: Run, prompt: seq<Token>, tokens: seq<Token>, y: seq<Token>, maxTokens: nat)
    requires run.Valid() && tokens != [] && |tokens| < maxTokens && y != [] && !run.limits.Finished(prompt + tokens)
    requires run.limits == StreamLimits(prompt, run.limits.stop, run.limits.blockSize, maxTokens)
    ensures var next := tokens + Part(tokens, y, run.limits.stop, maxTokens);
      && StreamBlock(run, prompt, tokens, maxTokens).value(y) == StreamValue(run, prompt, next, maxTokens)
      && run.Round(prompt + tokens).value(y) == run.RunValue(prompt + next)
  {
    hide StreamValue, Run.RunValue, IsLaw, Part;
    StreamCommits(prompt, tokens, y, run.limits.stop, run.limits.blockSize, maxTokens);
  }

  lemma StreamShape(run: Run, prompt: seq<Token>, tokens: seq<Token>, maxTokens: nat)
    requires run.Valid() && tokens != [] && |tokens| < maxTokens && run.limits.blockSize >= 2
    requires run.limits == StreamLimits(prompt, run.limits.stop, run.limits.blockSize, maxTokens)
    requires !run.limits.Finished(prompt + tokens)
    ensures var a, b := StreamBlock(run, prompt, tokens, maxTokens), run.Round(prompt + tokens);
      && a.n == b.n && a.gamma == b.gamma && a.tiny == b.tiny
      && (forall y :: a.target(y) == b.target(y)) && (forall y :: a.draft(y) == b.draft(y))
  {
    hide StreamValue, Run.RunValue, IsLaw, Part;
    StreamSizes(prompt, tokens, run.limits.stop, run.limits.blockSize, maxTokens);
  }

  lemma PartGrows(tokens: seq<Token>, y: seq<Token>, eos: set<Token>, maxTokens: nat)
    requires |tokens| < maxTokens && y != []
    ensures 0 < |Part(tokens, y, eos, maxTokens)| <= maxTokens - |tokens|
  {}

  /** The sampled stream, first token included, has the law of plain sampling from the target. */
  lemma SampledStreamHasTargetLaw(run: Run, prompt: seq<Token>, maxTokens: nat)
    requires run.Valid() && run.limits.blockSize >= 2 && maxTokens >= 1
    requires run.limits == StreamLimits(prompt, run.limits.stop, run.limits.blockSize, maxTokens)
    ensures Dot(run.target(prompt), seq(run.n, t requires 0 <= t < run.n => StreamValue(run, prompt, [t], maxTokens)))
         == run.PlainGenerateValue(prompt)
  {
    hide Dot, IsLaw, StreamValue, Run.PlainGenerateValue, Run.RunValue;
    forall t: nat | t < run.n ensures StreamValue(run, prompt, [t], maxTokens) == run.RunValue(prompt + [t]) {
      StreamIsRun(run, prompt, [t], maxTokens);
    }
    assert seq(run.n, t requires 0 <= t < run.n => StreamValue(run, prompt, [t], maxTokens))
        == seq(run.n, t requires 0 <= t < run.n => run.RunValue(prompt + [t]));
    run.SampledOutputHasTargetLaw(prompt);
  }
}
