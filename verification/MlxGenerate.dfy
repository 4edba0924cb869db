/**
 * The greedy token stream of the MLX backend: chunked prefill, drafting from retained hidden states,
 * verification, and rollback of attention and recurrent caches after every round.
 */
module MlxGenerate {
  import opened CacheRollback
  import opened Distribution
  import opened GreedyDecoding
  import opened Options

  // ---------------------------------------------------------------- prefill

  /** The hidden states prefill retains: everything, or the slice `[-limit:]`. */
  function Retained<F>(hidden: seq<F>, limit: Option<nat>): seq<F> {
    match limit
    case None => hidden
    case Some(k) => LastSlice(hidden, k)
  }

  /** The slice keeps exactly the last `min(k, n)` states unless `k` is zero, when it keeps all of them. */
  lemma RetainedExactly<F>(hidden: seq<F>, k: nat)
    requires hidden != []
    ensures Retained(hidden, Some(k)) == hidden[|hidden| - (if k < |hidden| then k else |hidden|)..] <==> k > 0
  {
    if k == 0 { assert |hidden[|hidden| - 0..]| == 0; }
  }

  lemma RetainedAppend<F>(a: seq<F>, b: seq<F>, limit: Option<nat>)
    ensures Retained(Retained(a, limit) + b, limit) == Retained(a + b, limit)
  {}

  lemma RetainedIsSuffix<F>(hidden: seq<F>, limit: Option<nat>)
    ensures |Retained(hidden, limit)| <= |hidden|
    ensures Retained(hidden, limit) == hidden[|hidden| - |Retained(hidden, limit)|..]
  {}

  lemma KeptFrom<F>(hidden: seq<F>, prompt: seq<nat>, limit: Option<nat>)
    requires |hidden| == |prompt| > 0
    ensures |prompt| - |Retained(hidden, limit)| == FirstKept(prompt, limit)
  {}

  datatype Prefill<R, F> = Prefilled(row: R, hidden: seq<F>, offset: nat) | InvalidStepSize

  /** `_prefill_target`: feed the prompt in chunks, the last token in a chunk of its own. */
  method PrefillTarget<X, S, R, F>(target: Target<X, S, R, F>, prompt: seq<Token>, limit: Option<nat>, stepSize: int)
    returns (r: Prefill<R, F>)
    requires target.Valid() && target.fed == [] && prompt != []
    modifies target
    ensures r.InvalidStepSize? <==> stepSize <= 0
    ensures r.Prefilled? ==>
      && target.Valid() && target.fed == prompt
      && r.row == target.net.row(prompt)
      && r.hidden == Retained(Positions(target.net.feature, [], prompt), limit)
      && r.offset == |prompt| - |r.hidden|
  {
    hide Retained, Positions, Target.CapturesOf, Network.Valid;
    if stepSize <= 0 { return InvalidStepSize; }
    RetainedEmpty(target.net.feature, limit);
    var hidden: seq<F> := [];
    var logits: Option<R> := None;
    var start := 0;
    while start < |prompt|
      invariant 0 <= start <= |prompt|
      invariant target.Valid() && target.fed == prompt[..start]
      invariant hidden == Retained(Positions(target.net.feature, [], prompt[..start]), limit)
      invariant start == |prompt| ==> logits == Some(target.net.row(prompt))
      decreases |prompt| - start
    {
      var remaining := |prompt| - start;
      var end := start + (if remaining == 1 then 1 else if stepSize < remaining - 1 then stepSize else remaining - 1);
      var block := prompt[start..end];
      var rows, features := target.Call(block);
      PositionsSplit(target.net.feature, prompt[..start], block);
      RetainedAppend(Positions(target.net.feature, [], prompt[..start]), features, limit);
      assert prompt[..start] + block == prompt[..end];
      hidden := Retained(hidden + features, limit);
      PositionsLast(target.net.row, prompt[..start], block);
      logits := Some(rows[|rows| - 1]);
      assert end == |prompt| ==> prompt[..end] == prompt;
      start := end;
    }
    assert prompt[..start] == prompt;
    RetainedIsSuffix(Positions(target.net.feature, [], prompt), limit);
    r := Prefilled(logits.value, hidden, |prompt| - |hidden|);
  }

  lemma PositionsLast<R>(f: seq<nat> -> R, fed: seq<nat>, block: seq<nat>)
    requires block != []
    ensures Positions(f, fed, block)[|block| - 1] == f(fed + block)
  {
    assert block[..|block|] == block;
  }

  lemma RetainedEmpty<F>(f: seq<nat> -> F, limit: Option<nat>)
    ensures Retained(Positions(f, [], []), limit) == []
  {}

  lemma PositionsSplit<R>(f: seq<nat> -> R, a: seq<nat>, b: seq<nat>)
    ensures Positions(f, [], a + b) == Positions(f, [], a) + Positions(f, a, b)
  {
    forall i | 0 <= i < |a| + |b| ensures Positions(f, [], a + b)[i] == (Positions(f, [], a) + Positions(f, a, b))[i] {
      assert [] + (a + b)[..i + 1] == (a + b)[..i + 1];
      if i < |a| {
        assert (a + b)[..i + 1] == a[..i + 1];
        assert [] + a[..i + 1] == a[..i + 1];
      } else {
        assert (a + b)[..i + 1] == a + b[..i - |a| + 1];
      }
    }
  }

  // ---------------------------------------------------------------- one verification

  /** `next((i for i in range(len(d)) if d[i] != t[i]), len(d))` */
  function FirstMismatch(d: seq<Token>, t: seq<Token>): (k: nat)
    requires |d| <= |t|
    ensures k <= |d| && d[..k] == t[..k] && (k < |d| ==> d[k] != t[k])
  {
    if d == [] || d[0] != t[0] then 0
    else
      var k := FirstMismatch(d[1..], t[1..]);
      assert d[..k + 1] == [d[0]] + d[1..][..k] && t[..k + 1] == [t[0]] + t[1..][..k];
      k + 1
  }

  function Argmaxes<R>(argmax: R -> Token, rows: seq<R>): (t: seq<Token>)
    ensures |t| == |rows|
  {
    seq<Token>(|rows|, i requires 0 <= i < |rows| => argmax(rows[i]))
  }

  /** `next` is the target's greedy choice. */
  ghost predicate IsGreedy<R(!new)>(next: seq<Token> -> Token, argmax: R -> Token, row: seq<Token> -> R) {
    forall y :: next(y) == argmax(row(y))
  }

  /** Accepted drafts plus the target's token at the first mismatch continue the text greedily. */
  lemma VerifiedFollows<R(!new)>(next: seq<Token> -> Token, row: seq<Token> -> R, argmax: R -> Token, s: seq<Token>, d: seq<Token>)
    requires s != [] && IsGreedy(next, argmax, row)
    ensures var t := Argmaxes(argmax, Positions(row, s[..|s| - 1], [s[|s| - 1]] + d));
      var k := FirstMismatch(d, t);
      Agrees(next, s, d, k) && t[k] == next(s + d[..k]) && Follows(next, s, d[..k] + [t[k]])
  {
    var fed, block := s[..|s| - 1], [s[|s| - 1]] + d;
    var t := Argmaxes(argmax, Positions(row, fed, block));
    var k := FirstMismatch(d, t);
    forall j | 0 <= j <= |d| ensures t[j] == next(s + d[..j]) {
      assert fed + block[..j + 1] == s + d[..j];
    }
    forall j | 0 <= j < k ensures d[j] == t[j] { assert d[..k][j] == t[..k][j]; }
    MatchedFollows(next, s, d, t, k);
  }

  /** The tokens up to and including the first end-of-sequence token. */
  function CutAtEos(y: seq<Token>, eos: set<Token>): (r: seq<Token>)
    ensures r <= y && (y != [] ==> r != [])
    ensures forall i :: 0 <= i < |r| - 1 ==> r[i] !in eos
    ensures r != y ==> r[|r| - 1] in eos
  {
    if y == [] then [] else if y[0] in eos then [y[0]] else [y[0]] + CutAtEos(y[1..], eos)
  }

  lemma FollowsPrefix(next: seq<Token> -> Token, s: seq<Token>, e: seq<Token>, k: nat)
    requires Follows(next, s, e) && k <= |e|
    ensures Follows(next, s, e[..k])
  {
    forall j | 0 <= j < k ensures e[..k][j] == next(s + e[..k][..j]) {
      assert e[..k][..j] == e[..j];
    }
  }

  // ---------------------------------------------------------------- the stream

  datatype Finish = Running | Stop | Length

  /** One yielded response: its tokens and finish reason. */
  datatype Response = Response(tokens: seq<Token>, finish: Finish)

  function Text(responses: seq<Response>): seq<Token> {
    if responses == [] then []
    else Text(responses[..|responses| - 1]) + responses[|responses| - 1].tokens
  }

  /** Draft model: retained features, their end offset, anchor token, block size, position. */
  type DraftModel<!F> = (seq<F>, nat, Token, nat, nat) -> Token

  /**
   * How many tokens the stream may emit: the limit, but never fewer than the one prefill emits, and only
   * that one when the block size leaves no room for a draft.
   */
  function StreamBudget(blockSize: nat, maxTokens: int): nat {
    if blockSize >= 2 && maxTokens > 1 then maxTokens else 1
  }

  /** `tokens` is a greedy run of at most `budget` tokens, and the rest of the run starts behind it. */
  ghost predicate GreedySoFar(next: seq<Token> -> Token, eos: set<Token>, prompt: seq<Token>, budget: nat,
                              tokens: seq<Token>, stopped: bool) {
    && 0 < |tokens| <= budget
    && Autoregressive(next, eos, prompt, budget) == tokens
         + (if stopped then [] else Autoregressive(next, eos, prompt + tokens, budget - |tokens|))
    && (stopped <==> tokens[|tokens| - 1] in eos)
  }

  /** Emitting the next part of the greedy run. */
  lemma GreedyExtend(next: seq<Token> -> Token, eos: set<Token>, prompt: seq<Token>, budget: nat,
                     tokens: seq<Token>, part: seq<Token>)
    requires GreedySoFar(next, eos, prompt, budget, tokens, false)
    requires Follows(next, prompt + tokens, part) && 0 < |part| <= budget - |tokens|
    requires forall i :: 0 <= i < |part| - 1 ==> part[i] !in eos
    ensures GreedySoFar(next, eos, prompt, budget, tokens + part, part[|part| - 1] in eos)
  {
    hide Autoregressive, Follows;
    var remaining := budget - |tokens|;
    var rest := if part[|part| - 1] in eos then [] else Autoregressive(next, eos, prompt + tokens + part, remaining - |part|);
    AutoregressiveSplit(next, eos, prompt + tokens, part, remaining);
    assert Autoregressive(next, eos, prompt, budget) == tokens + (part + rest) == tokens + part + rest;
    assert prompt + tokens + part == prompt + (tokens + part);
  }

  /** The part a round emits: what was verified, cut by the limit and the first end-of-sequence token. */
  lemma EmitGreedy(next: seq<Token> -> Token, eos: set<Token>, prompt: seq<Token>, budget: nat,
                   tokens: seq<Token>, verified: seq<Token>) returns (part: seq<Token>)
    requires GreedySoFar(next, eos, prompt, budget, tokens, false) && |tokens| < budget
    requires verified != [] && Follows(next, prompt + tokens, verified)
    ensures part == CutAtEos(verified[..if |verified| < budget - |tokens| then |verified| else budget - |tokens|], eos)
    ensures part != [] && part <= verified && IsCut(verified, budget - |tokens|, eos, part)
    ensures GreedySoFar(next, eos, prompt, budget, tokens + part, part[|part| - 1] in eos)
    ensures part[|part| - 1] !in eos && |tokens + part| < budget ==> part == verified
  {
    hide Autoregressive, GreedySoFar, Follows;
    var limited := verified[..if |verified| < budget - |tokens| then |verified| else budget - |tokens|];
    part := CutAtEos(limited, eos);
    FollowsPrefix(next, prompt + tokens, verified, |part|);
    assert part == verified[..|part|];
    GreedyExtend(next, eos, prompt, budget, tokens, part);
  }

  lemma FirstGreedy(next: seq<Token> -> Token, eos: set<Token>, prompt: seq<Token>, budget: nat)
    requires budget > 0
    ensures GreedySoFar(next, eos, prompt, budget, [next(prompt)], next(prompt) in eos)
  {}

  /** A run that stopped, or used its budget, is the whole greedy run. */
  lemma EndOfRun(next: seq<Token> -> Token, eos: set<Token>, prompt: seq<Token>, budget: nat, tokens: seq<Token>, stopped: bool)
    requires GreedySoFar(next, eos, prompt, budget, tokens, stopped)
    requires !stopped ==> |tokens| >= budget
    ensures tokens == Autoregressive(next, eos, prompt, budget)
  {}

  lemma KeptBlock(anchor: Token, d: seq<Token>, accepted: nat, bonus: Token)
    requires accepted <= |d|
    ensures [anchor] + (d[..accepted] + [bonus])[..accepted] == ([anchor] + d)[..accepted + 1]
  {}

  lemma FedGrows(prompt: seq<Token>, tokens: seq<Token>, verified: seq<Token>)
    requires tokens != [] && verified != []
    ensures prompt + (tokens + verified)[..|tokens + verified| - 1]
         == (prompt + tokens[..|tokens| - 1]) + ([tokens[|tokens| - 1]] + verified[..|verified| - 1])
  {}

  // ---------------------------------------------------------------- what each response holds

  /** What a stream depends on: the target's next token and features, the draft, and the request. */
  datatype Request<!F> = Request(next: seq<Token> -> Token, feature: seq<Token> -> F, draft: DraftModel<F>, prompt: seq<Token>,
                                 eos: set<Token>, blockSize: nat, maxTokens: int, firstOffset: nat)

  /** The tokens the draft proposes for a block of `bs` after the emitted `tokens`: it sees the retained features of all but the last. */
  function StreamDraft<F>(q: Request<F>, tokens: seq<Token>, bs: nat): (d: seq<Token>)
    requires tokens != [] && bs >= 1 && q.firstOffset <= |q.prompt|
    ensures |d| == bs - 1
  {
    var seen, fed := q.prompt + tokens, |q.prompt| + |tokens| - 1;
    var context := seq(fed - q.firstOffset, i requires 0 <= i < fed - q.firstOffset => q.feature(seen[..q.firstOffset + i + 1]));
    seq<Token>(bs - 1, i requires 0 <= i < bs - 1 => q.draft(context, fed, tokens[|tokens| - 1], bs, i))
  }

  /** The response of one round after `tokens`: as many drafted tokens as agree, and the target's own next one, cut off. */
  ghost predicate IsResponse<F>(q: Request<F>, tokens: seq<Token>, r: Response) {
    && q.firstOffset <= |q.prompt| && tokens != [] && tokens[|tokens| - 1] !in q.eos && |tokens| < q.maxTokens && q.blockSize >= 2
    && r.tokens != [] && r.finish == (if r.tokens[|r.tokens| - 1] in q.eos then Stop else Running)
    && var room := q.maxTokens - |tokens|;
       Yields(q.next, q.prompt + tokens,
              StreamDraft(q, tokens, if q.blockSize < room + 1 then q.blockSize else room + 1), room, q.eos, r.tokens)
  }

  /** The first response holds the target's first token, every other one is the response of a round. */
  ghost predicate AreResponses<F>(q: Request<F>, responses: seq<Response>) {
    if |responses| <= 1 then
      var first := q.next(q.prompt);
      responses == [Response([first], if first in q.eos then Stop else Running)]
    else
      var front := responses[..|responses| - 1];
      AreResponses(q, front) && IsResponse(q, Text(front), responses[|responses| - 1])
  }

  lemma OneMoreResponse<F>(q: Request<F>, responses: seq<Response>, r: Response)
    requires AreResponses(q, responses) && IsResponse(q, Text(responses), r)
    ensures AreResponses(q, responses + [r])
  {
    assert (responses + [r])[..|responses|] == responses;
    assert responses != [];
  }

  lemma FirstResponse<F>(q: Request<F>)
    ensures var first := q.next(q.prompt);
      AreResponses(q, [Response([first], if first in q.eos then Stop else Running)])
  {}

  /** The draft's input is the retained hidden states of the tokens fed so far. */
  lemma ContextIs<F>(q: Request<F>, tokens: seq<Token>, fed: seq<Token>, bs: nat, context: seq<F>, d: seq<Token>)
    requires tokens != [] && bs >= 1 && q.firstOffset <= |q.prompt|
    requires fed == (q.prompt + tokens)[..|q.prompt| + |tokens| - 1] && context == Positions(q.feature, [], fed)[q.firstOffset..]
    requires d == seq<Token>(bs - 1, i requires 0 <= i < bs - 1 => q.draft(context, |fed|, tokens[|tokens| - 1], bs, i))
    ensures d == StreamDraft(q, tokens, bs)
  {
    var seen, n := q.prompt + tokens, |q.prompt| + |tokens| - 1;
    var expected := seq(n - q.firstOffset, i requires 0 <= i < n - q.firstOffset => q.feature(seen[..q.firstOffset + i + 1]));
    forall i | 0 <= i < n - q.firstOffset ensures context[i] == expected[i] {
      assert [] + fed[..q.firstOffset + i + 1] == seen[..q.firstOffset + i + 1];
    }
    assert context == expected;
  }

  /** The first state prefill retains. */
  function FirstKept(prompt: seq<Token>, limit: Option<nat>): nat {
    match limit
    case None => 0
    case Some(k) => if 0 < k < |prompt| then |prompt| - k else 0
  }

  /** The responses of a finished stream: those of the rounds, and a last empty one unless an end token closed it. */
  ghost predicate AreClosed<F>(q: Request<F>, tokens: seq<Token>, responses: seq<Response>) {
    tokens != [] && responses != []
    && if tokens[|tokens| - 1] in q.eos then AreResponses(q, responses)
       else responses[|responses| - 1] == Response([], Length) && AreResponses(q, responses[..|responses| - 1])
  }

  datatype Outcome = Streamed(tokens: seq<Token>, responses: seq<Response>) | PrefillError

  class Stream<X, S, R(!new), F> {
    const target: Target<X, S, R, F>
    const argmax: R -> Token
    const draft: DraftModel<F>
    const prompt: seq<Token>
    const eos: set<Token>
    const blockSize: nat
    const maxTokens: int
    var tokens: seq<Token>
    var hidden: seq<F>
    var draftContext: seq<F>
    var draftOffset: nat
    var responses: seq<Response>
    var stopped: bool
    ghost const next: seq<Token> -> Token
    ghost const firstOffset: nat

    ghost function Budget(): nat { StreamBudget(blockSize, maxTokens) }

    ghost function Asked(): Request<F> {
      Request(next, target.net.feature, draft, prompt, eos, blockSize, maxTokens, firstOffset)
    }

    ghost predicate Emitting()
      reads this
    {
      && IsGreedy(next, argmax, target.net.row)
      && GreedySoFar(next, eos, prompt, Budget(), tokens, stopped)
      && Text(responses) == tokens && responses != [] && AreResponses(Asked(), responses)
      && responses[|responses| - 1].finish == if stopped then Stop else Running
    }

    /** The tokens whose hidden states and cache entries a loop head relies on: all but the last emitted. */
    ghost function Fed(): seq<Token>
      reads this
    {
      if tokens == [] then prompt else prompt + tokens[..|tokens| - 1]
    }

    /**
     * At a loop head that goes on: the target caches hold exactly the fed tokens, and draft context plus
     * retained states are the target's hidden states of those tokens from the first retained one on.
     */
    ghost predicate InStep()
      reads this, target
    {
      && target.Valid() && target.fed == Fed()
      && firstOffset <= |prompt|
      && draftOffset == firstOffset + |draftContext|
      && draftContext + hidden == Positions(target.net.feature, [], Fed())[firstOffset..]
    }

    ghost predicate Valid()
      reads this, target
    {
      && prompt != [] && Emitting()
      && (!stopped && |tokens| < Budget() ==> InStep())
    }

    /** The first token after prefill. */
    constructor (target: Target<X, S, R, F>, argmax: R -> Token, draft: DraftModel<F>, prompt: seq<Token>,
                 eos: set<Token>, blockSize: nat, maxTokens: int, prefill: Prefill<R, F>, ghost next: seq<Token> -> Token)
      requires target.Valid() && target.fed == prompt && prompt != []
      requires prefill.Prefilled? && prefill.row == target.net.row(prompt) && prefill.offset <= |prompt|
      requires prefill.hidden == Positions(target.net.feature, [], prompt)[prefill.offset..]
      requires IsGreedy(next, argmax, target.net.row)
      ensures Valid() && this.target == target && this.prompt == prompt && this.eos == eos && this.next == next
      ensures this.blockSize == blockSize && this.maxTokens == maxTokens
      ensures Asked() == Request(next, target.net.feature, draft, prompt, eos, blockSize, maxTokens, prefill.offset)
    {
      var token := argmax(prefill.row);
      this.target := target;
      this.argmax := argmax;
      this.draft := draft;
      this.prompt := prompt;
      this.eos := eos;
      this.blockSize := blockSize;
      this.maxTokens := maxTokens;
      this.next := next;
      hidden := prefill.hidden;
      draftContext := [];
      draftOffset := prefill.offset;
      firstOffset := prefill.offset;
      tokens := [token];
      stopped := token in eos;
      responses := [Response([token], if token in eos then Stop else Running)];
      new;
      FirstGreedy(next, eos, prompt, Budget());
      FirstResponse(Asked());
      assert prompt + tokens[..0] == prompt;
      assert responses[..0] == [];
      assert [] + hidden == hidden;
    }

    /** The draft call: retained hidden states join the context, and the draft offset reaches the target's. */
    method Propose(bs: nat) returns (d: seq<Token>)
      requires InStep() && tokens != [] && bs >= 2
      modifies this`draftContext, this`draftOffset
      ensures draftContext == Positions(target.net.feature, [], Fed())[firstOffset..]
      ensures draftOffset == firstOffset + |draftContext| == |prompt| + |tokens| - 1
      ensures d == StreamDraft(Asked(), tokens, bs)
    {
      draftContext := draftContext + hidden;
      draftOffset := draftOffset + |hidden|;
      var context, offset, anchor := draftContext, draftOffset, tokens[|tokens| - 1];
      d := seq<Token>(bs - 1, i requires 0 <= i < bs - 1 => draft(context, offset, anchor, bs, i));
      assert Fed() == (prompt + tokens)[..|prompt| + |tokens| - 1];
      ContextIs(Asked(), tokens, Fed(), bs, context, d);
      // The trim after drafting never has anything to remove.
      assert draftOffset - (|prompt| + |tokens| - 1) == 0;
    }

    /** Undo the rejected part of the block in the target caches. */
    method Undo(accepted: nat, bs: nat, ghost before: seq<Token>, ghost block: seq<Token>)
      requires target.Valid() && target.fed == before + block && |block| == bs && accepted < bs
      requires target.captures == target.CapturesOf(before, block, |target.net.layers|)
      modifies target
      ensures target.Valid() && target.fed == before + block[..accepted + 1]
    {
      var trim := bs - accepted - 1;
      if trim > 0 {
        if forall l :: 0 <= l < |target.net.layers| ==> target.net.layers[l].Attention? {
          target.TrimRecent(trim, before, block);
          assert block[..|block| - trim] == block[..accepted + 1];
        } else {
          target.Rollback(accepted, trim, before, block);
        }
      } else {
        assert block[..accepted + 1] == block;
      }
    }

    /** Append the verified tokens and yield them. */
    method Emit(verified: seq<Token>, ghost bs: nat, ghost k: nat)
      requires Emitting() && !stopped && |tokens| < Budget() && firstOffset <= |prompt|
      requires blockSize >= 2 && bs == if blockSize < maxTokens - |tokens| + 1 then blockSize else maxTokens - |tokens| + 1
      requires verified != [] && Follows(next, prompt + tokens, verified)
      requires var d := StreamDraft(Asked(), tokens, bs);
        Agrees(next, prompt + tokens, d, k) && verified == d[..k] + [next(prompt + tokens + d[..k])]
      modifies this`tokens, this`responses, this`stopped
      ensures Emitting() && |tokens| > |old(tokens)|
      ensures |responses| == |old(responses)| + 1
      ensures IsCut(verified, maxTokens - |old(tokens)|, eos, responses[|responses| - 1].tokens)
      ensures !stopped && |tokens| < Budget() ==> tokens == old(tokens) + verified
    {
      hide GreedySoFar, CutAtEos, Autoregressive, Follows, IsGreedy, AreResponses, IsResponse, StreamDraft, Agrees, IsCut;
      GreedyNonEmpty();
      var room := maxTokens - |tokens|;
      var part := CutAtEos(verified[..if |verified| < room then |verified| else room], eos);
      ghost var part' := EmitGreedy(next, eos, prompt, Budget(), tokens, verified);
      NotStoppedYet();
      HaveResponse(tokens, bs, k, part);
      OneMoreResponse(Asked(), responses, Response(part, if part[|part| - 1] in eos then Stop else Running));
      responses := responses + [Response(part, if part[|part| - 1] in eos then Stop else Running)];
      assert responses[..|responses| - 1] == old(responses);
      stopped := part[|part| - 1] in eos;
      tokens := tokens + part;
    }

    lemma NotStoppedYet()
      requires Emitting() && !stopped && |tokens| < Budget()
      ensures tokens != [] && tokens[|tokens| - 1] !in eos && |tokens| < maxTokens
    {}

    lemma HaveResponse(tokens: seq<Token>, bs: nat, k: nat, part: seq<Token>)
      requires firstOffset <= |prompt| && tokens != [] && tokens[|tokens| - 1] !in eos && |tokens| < maxTokens && blockSize >= 2
      requires bs == (if blockSize < maxTokens - |tokens| + 1 then blockSize else maxTokens - |tokens| + 1) && part != []
      requires var d := StreamDraft(Asked(), tokens, bs);
        && Agrees(next, prompt + tokens, d, k)
        && IsCut(d[..k] + [next(prompt + tokens + d[..k])], maxTokens - |tokens|, eos, part)
      ensures IsResponse(Asked(), tokens, Response(part, if part[|part| - 1] in eos then Stop else Running))
    {
      hide StreamDraft, IsCut;
      assert Yields(next, prompt + tokens, StreamDraft(Asked(), tokens, bs), maxTokens - |tokens|, eos, part);
    }

    lemma GreedyNonEmpty()
      requires Emitting()
      ensures 0 < |tokens|
    {}

    /** Draft and verify one block; the target caches then hold the whole block. */
    method Verify(bs: nat) returns (accepted: nat, verified: seq<Token>, features: seq<F>, ghost block: seq<Token>)
      requires Emitting() && InStep() && bs >= 2
      modifies this`draftContext, this`draftOffset, target
      ensures target.Valid() && target.fed == Fed() + block
      ensures target.captures == target.CapturesOf(Fed(), block, |target.net.layers|)
      ensures |block| == bs && accepted < bs && |verified| == accepted + 1
      ensures [tokens[|tokens| - 1]] + verified[..accepted] == block[..accepted + 1]
      ensures Follows(next, prompt + tokens, verified)
      ensures var d := StreamDraft(Asked(), tokens, bs);
        && (forall j :: 0 <= j < accepted ==> d[j] == next(prompt + tokens + d[..j]))
        && (accepted < |d| ==> d[accepted] != next(prompt + tokens + d[..accepted]))
        && verified == d[..accepted] + [next(prompt + tokens + d[..accepted])]
      ensures features == Positions(target.net.feature, Fed(), block)[..accepted + 1]
      ensures firstOffset <= |prompt| && draftOffset == firstOffset + |draftContext|
      ensures draftContext == Positions(target.net.feature, [], Fed())[firstOffset..]
    {
      hide GreedySoFar, Autoregressive, Target.CapturesOf, Text, Follows, IsGreedy, Network.Valid, AreResponses, StreamDraft;
      GreedyNonEmpty();
      ghost var s := prompt + tokens;
      assert s[..|s| - 1] == Fed() && s[|s| - 1] == tokens[|tokens| - 1];
      var d := Propose(bs);
      var input := [tokens[|tokens| - 1]] + d;
      block := input;
      var rows, hiddens := target.Call(input);
      var t := Argmaxes(argmax, rows);
      accepted := FirstMismatch(d, t);
      verified := d[..accepted] + [t[accepted]];
      KeptBlock(tokens[|tokens| - 1], d, accepted, t[accepted]);
      VerifiedFollows(next, target.net.row, argmax, s, d);
      features := hiddens[..accepted + 1];
    }

    /** The context grows by the hidden states of the tokens that stay fed. */
    lemma ContextGrows(before: seq<Token>, block: seq<Token>, k: nat)
      requires k <= |block| && firstOffset <= |before|
      ensures Positions(target.net.feature, [], before)[firstOffset..] + Positions(target.net.feature, before, block)[..k]
           == Positions(target.net.feature, [], before + block[..k])[firstOffset..]
    {
      PositionsSplit(target.net.feature, before, block[..k]);
      forall i | 0 <= i < k
        ensures Positions(target.net.feature, before, block)[i] == Positions(target.net.feature, before, block[..k])[i]
      {
        assert block[..k][..i + 1] == block[..i + 1];
      }
      assert Positions(target.net.feature, before, block)[..k] == Positions(target.net.feature, before, block[..k]);
    }

    /** After a round that goes on: undo the rejected tokens and retain the states of the kept ones. */
    method Settle(accepted: nat, features: seq<F>, bs: nat, ghost before: seq<Token>, ghost block: seq<Token>)
      requires target.Valid() && target.fed == before + block && |block| == bs && accepted < bs
      requires target.captures == target.CapturesOf(before, block, |target.net.layers|)
      requires features == Positions(target.net.feature, before, block)[..accepted + 1]
      requires firstOffset <= |before| && draftContext == Positions(target.net.feature, [], before)[firstOffset..]
      modifies target, this`hidden
      ensures target.Valid() && target.fed == before + block[..accepted + 1]
      ensures draftContext + hidden == Positions(target.net.feature, [], target.fed)[firstOffset..]
    {
      hide Target.CapturesOf, Target.Valid;
      Undo(accepted, bs, before, block);
      ContextGrows(before, block, accepted + 1);
      hidden := features;
    }

    /** What a round that goes on leaves fed: the kept part of its block. */
    lemma FedAfter(earlier: seq<Token>, verified: seq<Token>, block: seq<Token>, accepted: nat)
      requires earlier != [] && tokens == earlier + verified && |verified| == accepted + 1 <= |block|
      requires [earlier[|earlier| - 1]] + verified[..accepted] == block[..accepted + 1]
      ensures Fed() == prompt + earlier[..|earlier| - 1] + block[..accepted + 1]
    {
      FedGrows(prompt, earlier, verified);
    }

    /** Draft, verify and yield one block; `before` is what the target had been fed. */
    method Advance(bs: nat) returns (accepted: nat, features: seq<F>, ghost before: seq<Token>, ghost block: seq<Token>)
      requires Emitting() && InStep() && !stopped && |tokens| < Budget() && blockSize >= 2
      requires bs == if blockSize < maxTokens - |tokens| + 1 then blockSize else maxTokens - |tokens| + 1
      modifies this`draftContext, this`draftOffset, this`tokens, this`responses, this`stopped, target
      ensures Emitting() && |tokens| > |old(tokens)|
      ensures target.Valid() && target.fed == before + block && |block| == bs && accepted < bs
      ensures target.captures == target.CapturesOf(before, block, |target.net.layers|)
      ensures features == Positions(target.net.feature, before, block)[..accepted + 1]
      ensures firstOffset <= |prompt| && firstOffset <= |before| && draftOffset == firstOffset + |draftContext|
      ensures draftContext == Positions(target.net.feature, [], before)[firstOffset..]
      ensures !stopped && |tokens| < Budget() ==> Fed() == before + block[..accepted + 1]
    {
      hide GreedySoFar, Target.CapturesOf, Target.Valid, Network.Valid, Follows, Positions, Text, IsGreedy, Autoregressive,
        AreResponses, StreamDraft, IsCut;
      GreedyNonEmpty();
      before := Fed();
      var verified;
      accepted, verified, features, block := Verify(bs);
      Emit(verified, bs, accepted);
      if !stopped && |tokens| < Budget() { FedAfter(old(tokens), verified, block, accepted); }
    }

    /** One round of drafting, verification and rollback. */
    method Round()
      requires Valid() && !stopped && |tokens| < maxTokens && blockSize >= 2
      modifies this, target
      ensures Valid() && |tokens| > |old(tokens)|
    {
      hide GreedySoFar, Target.CapturesOf, Target.Valid, Network.Valid, Positions, Text, IsGreedy, AreResponses;
      var room := maxTokens - |tokens| + 1;
      var bs := if blockSize < room then blockSize else room;
      var accepted, features, before, block := Advance(bs);
      if !stopped {
        Settle(accepted, features, bs, before, block);
      }
    }

    /** The end of the stream: a final empty response unless an end-of-sequence token closed it. */
    method Close() returns (r: Outcome)
      requires Emitting() && (!stopped ==> |tokens| >= Budget())
      ensures r.Streamed? && r.tokens == Autoregressive(next, eos, prompt, Budget())
      ensures Text(r.responses) == r.tokens && r.tokens != [] && r.responses != []
      ensures r.responses[|r.responses| - 1].finish == if r.tokens[|r.tokens| - 1] in eos then Stop else Length
      ensures AreClosed(Asked(), r.tokens, r.responses)
    {
      hide Autoregressive, AreResponses;
      var all := responses;
      if !stopped {
        all := all + [Response([], Length)];
        assert all[..|all| - 1] == responses;
      }
      EndOfRun(next, eos, prompt, Budget(), tokens, stopped);
      r := Streamed(tokens, all);
    }
  }

  /** `_stream_generate` with temperature zero. */
  method StreamGenerate<X, S, R(!new), F>(net: Network<X, S, R, F>, argmax: R -> Token, draft: DraftModel<F>,
                                          prompt: seq<Token>, eos: set<Token>, blockSize: nat, maxTokens: int,
                                          limit: Option<nat>, stepSize: int, ghost next: seq<Token> -> Token)
    returns (r: Outcome)
    requires net.Valid() && prompt != [] && IsGreedy(next, argmax, net.row)
    ensures r.PrefillError? <==> stepSize <= 0
    ensures r.Streamed? ==> r.tokens == Autoregressive(next, eos, prompt, StreamBudget(blockSize, maxTokens))
    ensures r.Streamed? ==> Text(r.responses) == r.tokens && r.tokens != [] && r.responses != []
    ensures r.Streamed? ==>
      r.responses[|r.responses| - 1].finish == if r.tokens[|r.tokens| - 1] in eos then Stop else Length
    ensures r.Streamed? ==>
      AreClosed(Request(next, net.feature, draft, prompt, eos, blockSize, maxTokens, FirstKept(prompt, limit)), r.tokens, r.responses)
  {
    hide Autoregressive, GreedySoFar, Positions, Text, Retained, Network.FreshAll, Network.Valid, Network.WideKernels,
      AreResponses, AreClosed;
    var target := new Target(net);
    var prefill := PrefillTarget(target, prompt, limit, stepSize);
    if prefill.InvalidStepSize? { return PrefillError; }
    RetainedIsSuffix(Positions(net.feature, [], prompt), limit);
    KeptFrom(Positions(net.feature, [], prompt), prompt, limit);
    var stream := new Stream(target, argmax, draft, prompt, eos, blockSize, maxTokens, prefill, next);
    while !stream.stopped && |stream.tokens| < maxTokens && blockSize > 1
      invariant stream.Valid() && stream.target == target
      invariant stream.prompt == prompt && stream.eos == eos && stream.next == next
      invariant stream.blockSize == blockSize && stream.maxTokens == maxTokens
      invariant stream.Asked() == Request(next, net.feature, draft, prompt, eos, blockSize, maxTokens, prefill.offset)
      decreases maxTokens - |stream.tokens|
    {
      stream.Round();
    }
    stream.GreedyNonEmpty();
    r := stream.Close();
  }
}
