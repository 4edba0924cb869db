/** Greedy speculative decoding equals plain greedy decoding, for every draft model. */
module GreedyDecoding {
  import opened AcceptedPrefix
  import opened DecodeLimits
  import opened Distribution
  import opened GenerateLoop

  /** Plain greedy decoding: one token per step until a stop token or `budget` tokens. */
  function Autoregressive(next: seq<Token> -> Token, stop: set<Token>, s: seq<Token>, budget: nat): (r: seq<Token>)
    ensures |r| <= budget
    decreases budget
  {
    if budget == 0 then []
    else
      var t := next(s);
      if t in stop then [t] else [t] + Autoregressive(next, stop, s + [t], budget - 1)
  }

  /** Every token of `e` is the greedy continuation of what precedes it. */
  ghost predicate Follows(next: seq<Token> -> Token, s: seq<Token>, e: seq<Token>) {
    forall j :: 0 <= j < |e| ==> e[j] == next(s + e[..j])
  }

  lemma FollowsTail(next: seq<Token> -> Token, s: seq<Token>, e: seq<Token>)
    requires Follows(next, s, e) && e != []
    ensures e[0] == next(s) && Follows(next, s + [e[0]], e[1..])
  {
    assert s + e[..0] == s;
    forall j | 0 <= j < |e[1..]| ensures e[1..][j] == next(s + [e[0]] + e[1..][..j]) {
      assert s + [e[0]] + e[1..][..j] == s + e[..j + 1];
    }
  }

  /** A greedy run can be cut anywhere before its first stop token and continued from there. */
  lemma {:induction false} AutoregressiveSplit(next: seq<Token> -> Token, stop: set<Token>, s: seq<Token>, e: seq<Token>, budget: nat)
    requires Follows(next, s, e) && 0 < |e| <= budget
    requires forall j :: 0 <= j < |e| - 1 ==> e[j] !in stop
    ensures Autoregressive(next, stop, s, budget)
         == e + (if e[|e| - 1] in stop then [] else Autoregressive(next, stop, s + e, budget - |e|))
    decreases |e|
  {
    hide Follows, Autoregressive;
    FollowsTail(next, s, e);
    AutoregressiveStep(next, stop, s, budget);
    if |e| == 1 {
      assert e == [next(s)];
    } else {
      AutoregressiveSplit(next, stop, s + [e[0]], e[1..], budget - 1);
      assert s + [e[0]] + e[1..] == s + e;
      assert [e[0]] + e[1..] == e;
    }
  }

  lemma AutoregressiveStep(next: seq<Token> -> Token, stop: set<Token>, s: seq<Token>, budget: nat)
    requires budget > 0
    ensures Autoregressive(next, stop, s, budget)
         == [next(s)] + (if next(s) in stop then [] else Autoregressive(next, stop, s + [next(s)], budget - 1))
  {}

  /** Greedy verification: accept while the draft agrees with the target's argmax, then take the argmax itself. */
  function GreedyVerify<R(!new)>(argmax: R -> Token, rows: seq<R>, x: seq<Token>): (r: (nat, Token))
    ensures r.0 <= |x|
    ensures |rows| == |x| + 1 ==>
      && (forall j :: 0 <= j < r.0 ==> x[j] == argmax(rows[j]))
      && (r.0 < |x| ==> x[r.0] != argmax(rows[r.0]))
      && r.1 == argmax(rows[r.0])
  {
    if |rows| != |x| + 1 then (0, 0)
    else
      var flags := seq(|x|, i requires 0 <= i < |x| => x[i] == argmax(rows[i]));
      AcceptedLengthIsLongestPrefix(flags);
      var accepted := AcceptedLength(flags);
      assert forall j :: 0 <= j < accepted ==> x[j] == argmax(rows[j]) by {
        forall j | 0 <= j < accepted ensures x[j] == argmax(rows[j]) { assert flags[j]; }
      }
      (accepted, argmax(rows[accepted]))
  }

  function GreedyModels<R(!new), F>(row: seq<Token> -> R, argmax: R -> Token, feature: seq<Token> -> F,
                                    draft: (seq<F>, Token, nat, nat, nat) -> Token): (m: Models<R, F>)
    ensures m.Valid()
  {
    Models(row, feature, argmax, draft, (rows, x, round) => GreedyVerify(argmax, rows, x))
  }

  /** `t` holds the target's choices after each prefix of `x`; the first `k` agree with `x`. */
  lemma MatchedFollows(next: seq<Token> -> Token, s: seq<Token>, x: seq<Token>, t: seq<Token>, k: nat)
    requires |t| == |x| + 1 && k <= |x|
    requires forall j :: 0 <= j <= |x| ==> t[j] == next(s + x[..j])
    requires forall j :: 0 <= j < k ==> x[j] == t[j]
    ensures Follows(next, s, x[..k] + [t[k]])
  {
    var e := x[..k] + [t[k]];
    forall j | 0 <= j < |e| ensures e[j] == next(s + e[..j]) {
      assert e[..j] == x[..j];
    }
  }

  /** Exactly `k` drafted tokens agree with the greedy continuation of `s` before the first that does not. */
  ghost predicate Agrees(next: seq<Token> -> Token, s: seq<Token>, x: seq<Token>, k: nat) {
    && k <= |x|
    && (forall j :: 0 <= j < k ==> x[j] == next(s + x[..j]))
    && (k < |x| ==> x[k] != next(s + x[..k]))
  }

  /** `part` is `y` cut off after `room` tokens and after the first stop token. */
  ghost predicate IsCut(y: seq<Token>, room: nat, stop: set<Token>, part: seq<Token>) {
    && part <= y && |part| <= room
    && (forall i :: 0 <= i < |part| - 1 ==> part[i] !in stop)
    && (part == y || |part| == room || (part != [] && part[|part| - 1] in stop))
  }

  /** Drafted `x` after `s`, a round yields `part`: the drafted tokens that agree and the target's next one, cut off. */
  ghost predicate Yields(next: seq<Token> -> Token, s: seq<Token>, x: seq<Token>, room: nat, stop: set<Token>, part: seq<Token>) {
    exists k: nat :: Agrees(next, s, x, k) && IsCut(x[..k] + [next(s + x[..k])], room, stop, part)
  }

  /** What the draft proposes for a round after `s`, from the target's features of all but its last token. */
  function Proposed<R(!new), F>(m: Models<R, F>, s: seq<Token>, size: nat, round: nat): (x: seq<Token>)
    requires s != [] && size > 0
    ensures |x| == size - 1
  {
    var features := seq(|s| - 1, i requires 0 <= i < |s| - 1 => m.feature(s[..i + 1]));
    seq<Token>(size - 1, i requires 0 <= i < size - 1 => m.draft(features, s[|s| - 1], size, round, i))
  }

  lemma ProposedIsDrafted<R(!new), F>(m: Models<R, F>, s: seq<Token>, size: nat, round: nat)
    requires s != [] && size > 0
    ensures m.Drafted(m.Features([], s[..|s| - 1]), s[|s| - 1], size, round) == Proposed(m, s, size, round)
  {
    var fed := s[..|s| - 1];
    var features := seq(|s| - 1, i requires 0 <= i < |s| - 1 => m.feature(s[..i + 1]));
    forall i | 0 <= i < |fed| ensures m.Features([], fed)[i] == features[i] {
      assert [] + fed[..i + 1] == s[..i + 1];
    }
    assert m.Features([], fed) == features;
  }

  /** A round emits the drafted tokens that agree, as many as there are, and the target's own next token. */
  lemma GreedyRound<R(!new), F>(m: Models<R, F>, argmax: R -> Token, next: seq<Token> -> Token,
                                s: seq<Token>, size: nat, round: nat) returns (k: nat)
    requires m == GreedyModels(m.row, argmax, m.feature, m.draft)
    requires s != [] && size > 0 && forall y :: next(y) == argmax(m.row(y))
    ensures var x := Proposed(m, s, size, round);
      Agrees(next, s, x, k) && m.Emitted(s, size, round) == x[..k] + [next(s + x[..k])]
  {
    hide Models.Features, Models.Drafted, Models.Decode, Follows;
    var fed, anchor := s[..|s| - 1], s[|s| - 1];
    var x := Proposed(m, s, size, round);
    ProposedIsDrafted(m, s, size, round);
    hide Proposed;
    var rows := m.Rows(fed, [anchor] + x);
    forall j | 0 <= j <= |x| ensures argmax(rows[j]) == next(s + x[..j]) {
      assert fed + ([anchor] + x)[..j + 1] == s + x[..j];
    }
    assert size == 1 ==> x == [];
    k := GreedyVerify(argmax, rows, x).0;
  }

  /** Accepted drafts plus the bonus token are the greedy continuation, right or wrong drafts alike. */
  lemma GreedyEmission<R(!new), F>(m: Models<R, F>, argmax: R -> Token, next: seq<Token> -> Token,
                                   s: seq<Token>, size: nat, round: nat)
    requires m == GreedyModels(m.row, argmax, m.feature, m.draft)
    requires s != [] && size > 0 && forall y :: next(y) == argmax(m.row(y))
    ensures Follows(next, s, m.Emitted(s, size, round))
  {
    hide Models.Emitted, Follows, Proposed;
    var k := GreedyRound(m, argmax, next, s, size, round);
    var x := Proposed(m, s, size, round);
    MatchedFollows(next, s, x, seq<Token>(|x| + 1, j requires 0 <= j <= |x| => next(s + x[..j])), k);
  }

  /** What a round commits is a greedy continuation whose only stop token can be its last. */
  lemma GreedyCommit(next: seq<Token> -> Token, limits: Limits, s: seq<Token>, e: seq<Token>) returns (c: seq<Token>)
    requires Follows(next, s, e) && e != [] && |s| < limits.maxLength
    ensures limits.Committed(s, e) == s + c && Follows(next, s, c)
    ensures 0 < |c| <= limits.maxLength - |s|
    ensures forall j :: 0 <= j < |c| - 1 ==> c[j] !in limits.stop
    ensures IsCut(e, limits.maxLength - |s|, limits.stop, c)
  {
    var w := e[..if |e| < limits.maxLength - |s| then |e| else limits.maxLength - |s|];
    c := w[..limits.StopCut(w)];
    assert c == e[..|c|];
    forall j | 0 <= j < |c| ensures c[j] == next(s + c[..j]) { assert c[..j] == e[..j]; }
  }

  /** The loop from an unfinished text returns that text followed by its greedy continuation. */
  lemma {:induction false} DecodeIsAutoregressive<R(!new), F>(m: Models<R, F>, argmax: R -> Token, next: seq<Token> -> Token,
                                                              limits: Limits, s: seq<Token>, round: nat)
    requires m == GreedyModels(m.row, argmax, m.feature, m.draft)
    requires forall y :: next(y) == argmax(m.row(y))
    requires s != [] && limits.blockSize >= 1 && !limits.Finished(s)
    ensures m.Decode(limits, s, round) == s + Autoregressive(next, limits.stop, s, limits.maxLength - |s|)
    decreases limits.maxLength - |s|
  {
    hide Limits.Committed, Limits.StopCut, Models.Emitted, Autoregressive;
    var e := m.Emitted(s, limits.VerifySize(s), round);
    GreedyEmission(m, argmax, next, s, limits.VerifySize(s), round);
    var c := GreedyCommit(next, limits, s, e);
    AutoregressiveSplit(next, limits.stop, s, c, limits.maxLength - |s|);
    if limits.Finished(s + c) {
      AutoregressiveEmpty(next, limits.stop, s + c);
    } else {
      DecodeIsAutoregressive(m, argmax, next, limits, s + c, round + 1);
    }
  }

  lemma AutoregressiveEmpty(next: seq<Token> -> Token, stop: set<Token>, s: seq<Token>)
    ensures Autoregressive(next, stop, s, 0) == []
  {}

  /**
   * The rounds from the text `s` on: each advances by what is left, after length limit and first stop token, of the
   * drafted tokens that agree and the target's own next one; together they lead to `output`.
   */
  ghost predicate AreRounds<R(!new), F>(m: Models<R, F>, next: seq<Token> -> Token, limits: Limits, s: seq<Token>, round: nat,
                                        lengths: seq<nat>, output: seq<Token>)
    requires s != [] && limits.blockSize >= 1
    decreases |lengths|
  {
    if lengths == [] then output == s && limits.Finished(s)
    else
      && !limits.Finished(s) && |s| + lengths[0] <= |output| && output[..|s|] == s
      && IsRound(m, next, limits, s, round, output[|s|..|s| + lengths[0]])
      && AreRounds(m, next, limits, output[..|s| + lengths[0]], round + 1, lengths[1..], output)
  }

  ghost predicate IsRound<R(!new), F>(m: Models<R, F>, next: seq<Token> -> Token, limits: Limits, s: seq<Token>, round: nat,
                                      part: seq<Token>)
    requires 0 < |s| < limits.maxLength && limits.blockSize >= 1
  {
    var room := limits.maxLength - |s|;
    var x := Proposed(m, s, if limits.blockSize < room + 1 then limits.blockSize else room + 1, round);
    part != [] && Yields(next, s, x, room, limits.stop, part)
  }

  /** One round in front of those that follow. */
  lemma RoundBefore<R(!new), F>(m: Models<R, F>, next: seq<Token> -> Token, limits: Limits, s: seq<Token>, round: nat,
                                part: seq<Token>, lengths: seq<nat>, output: seq<Token>)
    requires s != [] && limits.blockSize >= 1 && !limits.Finished(s) && IsRound(m, next, limits, s, round, part)
    requires s + part <= output && AreRounds(m, next, limits, s + part, round + 1, lengths, output)
    ensures AreRounds(m, next, limits, s, round, [|part|] + lengths, output)
  {
    hide IsRound;
    assert ([|part|] + lengths)[1..] == lengths;
    assert output[..|s| + |part|] == s + part && output[|s|..|s| + |part|] == part && output[..|s|] == s;
  }

  /** A greedy round is one. */
  lemma GreedyIsRound<R(!new), F>(m: Models<R, F>, argmax: R -> Token, next: seq<Token> -> Token,
                                  limits: Limits, s: seq<Token>, round: nat) returns (part: seq<Token>)
    requires m == GreedyModels(m.row, argmax, m.feature, m.draft)
    requires forall y :: next(y) == argmax(m.row(y))
    requires s != [] && limits.blockSize >= 1 && !limits.Finished(s)
    ensures limits.Committed(s, m.Emitted(s, limits.VerifySize(s), round)) == s + part && part != []
    ensures |s + part| <= limits.maxLength && IsRound(m, next, limits, s, round, part)
  {
    hide Limits.Committed, Limits.StopCut, Models.Emitted, Follows, Proposed, IsCut;
    var size := limits.VerifySize(s);
    var k := GreedyRound(m, argmax, next, s, size, round);
    GreedyEmission(m, argmax, next, s, size, round);
    part := GreedyCommit(next, limits, s, m.Emitted(s, size, round));
    HaveRound(m, next, limits, s, round, k, part);
  }

  lemma HaveRound<R(!new), F>(m: Models<R, F>, next: seq<Token> -> Token, limits: Limits, s: seq<Token>, round: nat,
                              k: nat, part: seq<Token>)
    requires 0 < |s| < limits.maxLength && limits.blockSize >= 1 && part != []
    requires var x := Proposed(m, s, limits.VerifySize(s), round);
      Agrees(next, s, x, k) && IsCut(x[..k] + [next(s + x[..k])], limits.maxLength - |s|, limits.stop, part)
    ensures IsRound(m, next, limits, s, round, part)
  {
    hide Proposed, IsCut;
    assert Yields(next, s, Proposed(m, s, limits.VerifySize(s), round), limits.maxLength - |s|, limits.stop, part);
  }

  /** The acceptance lengths of a run tell its rounds. */
  lemma {:induction false} AdvancesAreRounds<R(!new), F>(m: Models<R, F>, argmax: R -> Token, next: seq<Token> -> Token,
                                                         limits: Limits, s: seq<Token>, round: nat)
    requires m == GreedyModels(m.row, argmax, m.feature, m.draft)
    requires forall y :: next(y) == argmax(m.row(y))
    requires s != [] && limits.blockSize >= 1 && |s| <= limits.maxLength
    ensures AreRounds(m, next, limits, s, round, m.Advances(limits, s, round), m.Decode(limits, s, round))
    ensures s <= m.Decode(limits, s, round)
    decreases limits.maxLength - |s|
  {
    if !limits.Finished(s) {
      hide Limits.Committed, Limits.StopCut, Models.Emitted, IsRound, AreRounds;
      var part := GreedyIsRound(m, argmax, next, limits, s, round);
      AdvancesAreRounds(m, argmax, next, limits, s + part, round + 1);
      RoundBefore(m, next, limits, s, round, part, m.Advances(limits, s + part, round + 1), m.Decode(limits, s, round));
    }
  }

  /**
   * Greedy `dflash_generate` returns the prompt and its plain greedy continuation, and how far each round advanced.
   */
  method GenerateGreedy<R(!new), F>(row: seq<Token> -> R, argmax: R -> Token, feature: seq<Token> -> F,
                                    draft: (seq<F>, Token, nat, nat, nat) -> Token,
                                    prompt: seq<Token>, maxNew: nat, stop: set<Token>, blockSize: nat, mask: Token)
    returns (output: seq<Token>, acceptanceLengths: seq<nat>)
    requires prompt != [] && blockSize >= 1
    ensures output == prompt + Autoregressive(y => argmax(row(y)), stop, prompt, maxNew)
    ensures if maxNew == 0 then acceptanceLengths == []
            else AreRounds(GreedyModels(row, argmax, feature, draft), y => argmax(row(y)), Limits(|prompt| + maxNew, stop, blockSize),
                           prompt + [argmax(row(prompt))], 0, acceptanceLengths, output)
  {
    var m := GreedyModels(row, argmax, feature, draft);
    output, acceptanceLengths := Generate(m, prompt, maxNew, stop, blockSize, mask);
    GreedyOutput(m, argmax, prompt, maxNew, stop, blockSize);
    if maxNew > 0 {
      AdvancesAreRounds(m, argmax, y => argmax(row(y)), Limits(|prompt| + maxNew, stop, blockSize), prompt + [argmax(row(prompt))], 0);
    }
  }

  lemma GreedyOutput<R(!new), F>(m: Models<R, F>, argmax: R -> Token,
                                 prompt: seq<Token>, maxNew: nat, stop: set<Token>, blockSize: nat)
    requires m == GreedyModels(m.row, argmax, m.feature, m.draft)
    requires prompt != [] && blockSize >= 1
    ensures m.Decode(Limits(|prompt| + maxNew, stop, blockSize), prompt + [m.first(m.row(prompt))], 0)
         == prompt + Autoregressive(y => argmax(m.row(y)), stop, prompt, maxNew)
  {
    hide Models.Emitted, Models.Rows, Models.Features;
    var limits := Limits(|prompt| + maxNew, stop, blockSize);
    var next := y => argmax(m.row(y));
    var t := next(prompt);
    assert (prompt + [t])[..|prompt|] == prompt;
    if limits.Finished(prompt + [t]) {
      AutoregressiveEmpty(next, stop, prompt + [t]);
    } else {
      DecodeIsAutoregressive(m, argmax, next, limits, prompt + [t], 0);
    }
  }
}
