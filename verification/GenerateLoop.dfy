/**
 * The decoding loop of `dflash_generate`: one output buffer written in place, a target cache and a draft
 * cache that are extended by every block and cropped back to the committed tokens. The loop is proved
 * against `Decode`, which knows no cache: every round sees the committed text only.
 */
module GenerateLoop {
  import opened DecodeLimits
  import opened Distribution

  /** `_crop_to`: drop the last entries until `length` remain. */
  function CropTo<E>(cache: seq<E>, length: nat): (r: seq<E>)
    requires length <= |cache|
    ensures |r| == length && r <= cache
  {
    var remove := |cache| - length;
    cache[..|cache| - remove]
  }

  /** What the draft model keeps per position: a target feature of a committed token, or block noise. */
  datatype DraftEntry<F> = Context(feature: F) | Noise(position: nat)

  /**
   * The two models. `row` is the target's output after a token sequence, `feature` its hidden state at the
   * last token. `draft(context, anchor, size, round, i)` is the i-th drafted token of a round, and
   * `verify(rows, drafted, round)` the accepted count and the bonus token; both may be randomised by round.
   */
  datatype Models<!R(!new), !F> = Models(
    row: seq<Token> -> R,
    feature: seq<Token> -> F,
    first: R -> Token,
    draft: (seq<F>, Token, nat, nat, nat) -> Token,
    verify: (seq<R>, seq<Token>, nat) -> (nat, Token))
  {
    ghost predicate Valid() {
      forall rows, x, round :: verify(rows, x, round).0 <= |x|
    }

    /** Target outputs for `block` after the tokens `fed`. */
    function Rows(fed: seq<Token>, block: seq<Token>): (r: seq<R>)
      ensures |r| == |block|
    {
      seq(|block|, i requires 0 <= i < |block| => row(fed + block[..i + 1]))
    }

    function Features(fed: seq<Token>, block: seq<Token>): (r: seq<F>)
      ensures |r| == |block|
    {
      seq(|block|, i requires 0 <= i < |block| => feature(fed + block[..i + 1]))
    }

    function Drafted(context: seq<F>, anchor: Token, size: nat, round: nat): (x: seq<Token>)
      requires size > 0
      ensures |x| == size - 1
    {
      seq<Token>(size - 1, i requires 0 <= i < size - 1 => draft(context, anchor, size, round, i))
    }

    /** The tokens one round emits after the text `s`; a block of one token is never drafted. */
    function Emitted(s: seq<Token>, size: nat, round: nat): (e: seq<Token>)
      requires Valid() && s != [] && size > 0
      ensures 0 < |e| <= size
    {
      var fed := s[..|s| - 1];
      var anchor := s[|s| - 1];
      var x := if size > 1 then Drafted(Features([], fed), anchor, size, round) else [];
      var verdict := verify(Rows(fed, [anchor] + x), x, round);
      x[..verdict.0] + [verdict.1]
    }

    /** The returned text when the loop stands at the text `s`. */
    function Decode(limits: Limits, s: seq<Token>, round: nat): seq<Token>
      requires Valid() && s != [] && limits.blockSize >= 1
      decreases limits.maxLength - |s|
    {
      if limits.Finished(s) then limits.Trim(s)
      else Decode(limits, limits.Committed(s, Emitted(s, limits.VerifySize(s), round)), round + 1)
    }

    /** By how much each round advances the text. */
    function Advances(limits: Limits, s: seq<Token>, round: nat): seq<nat>
      requires Valid() && s != [] && limits.blockSize >= 1
      decreases limits.maxLength - |s|
    {
      if limits.Finished(s) then []
      else
        var t := limits.Committed(s, Emitted(s, limits.VerifySize(s), round));
        [|t| - |s|] + Advances(limits, t, round + 1)
    }
  }

  lemma FeaturesExtend<R(!new), F>(m: Models<R, F>, fed: seq<Token>, block: seq<Token>, text: seq<Token>, k: nat)
    requires |fed| + k <= |text| && k <= |block|
    requires text[..|fed| + k] == fed + block[..k]
    ensures m.Features([], text[..|fed| + k]) == m.Features([], fed) + m.Features(fed, block)[..k]
  {
    var t := text[..|fed| + k];
    forall i | 0 <= i < |fed| + k
      ensures m.Features([], t)[i] == (m.Features([], fed) + m.Features(fed, block)[..k])[i]
    {
      assert [] + t[..i + 1] == t[..i + 1];
      if i < |fed| {
        assert t[..i + 1] == fed[..i + 1];
        assert [] + fed[..i + 1] == fed[..i + 1];
      } else {
        assert t[..i + 1] == fed + block[..i - |fed| + 1];
      }
    }
  }

  /** The draft cache of the committed text is extended by the features of the accepted tokens. */
  lemma ContextsExtend<R(!new), F>(m: Models<R, F>, fed: seq<Token>, block: seq<Token>, text: seq<Token>, k: nat)
    requires |fed| + k <= |text| && k <= |block|
    requires text[..|fed| + k] == fed + block[..k]
    ensures Contexts(m.Features([], fed)) + Contexts(m.Features(fed, block)[..k])
         == Contexts(m.Features([], text[..|fed| + k]))
  {
    FeaturesExtend(m, fed, block, text, k);
  }

  /** Committing `k` emitted tokens: all but the last were drafted and accepted. */
  lemma CommittedPrefix(limits: Limits, s: seq<Token>, x: seq<Token>, accepted: nat, bonus: Token)
    returns (k: nat)
    requires s != [] && |s| < limits.maxLength && accepted <= |x|
    ensures 1 <= k <= accepted + 1 && |s| + k <= limits.maxLength
    ensures var e := x[..accepted] + [bonus];
      k == limits.StopCut(e[..if |e| < limits.maxLength - |s| then |e| else limits.maxLength - |s|])
    ensures limits.Committed(s, x[..accepted] + [bonus]) == s + (x[..accepted] + [bonus])[..k]
    ensures (x[..accepted] + [bonus])[..k - 1] == x[..k - 1]
  {
    var e := x[..accepted] + [bonus];
    var produced := if |e| < limits.maxLength - |s| then |e| else limits.maxLength - |s|;
    k := limits.StopCut(e[..produced]);
    assert e[..produced][..k] == e[..k];
  }

  function Contexts<F>(fs: seq<F>): (r: seq<DraftEntry<F>>)
    ensures |r| == |fs|
  {
    seq(|fs|, i requires 0 <= i < |fs| => Context(fs[i]))
  }

  function Noises<F>(start: nat, size: nat): (r: seq<DraftEntry<F>>)
    ensures |r| == size
  {
    seq(size, i requires 0 <= i < size => Noise(start + i))
  }

  /** The target features among the entries the draft attends to. */
  function FeaturesOf<F>(entries: seq<DraftEntry<F>>): seq<F> {
    if entries == [] then []
    else (match entries[0] case Context(f) => [f] case Noise(_) => []) + FeaturesOf(entries[1..])
  }

  lemma {:induction false} NoiseHasNoFeatures<F>(entries: seq<DraftEntry<F>>)
    requires forall i :: 0 <= i < |entries| ==> entries[i].Noise?
    ensures FeaturesOf(entries) == []
  {
    if entries != [] { NoiseHasNoFeatures(entries[1..]); }
  }

  lemma {:induction false} FeaturesOfContexts<F>(fs: seq<F>, noise: seq<DraftEntry<F>>)
    requires forall i :: 0 <= i < |noise| ==> noise[i].Noise?
    ensures FeaturesOf(Contexts(fs) + noise) == fs
  {
    var e := Contexts(fs) + noise;
    if fs == [] {
      assert e == noise;
      NoiseHasNoFeatures(noise);
    } else {
      FeaturesOfContexts(fs[1..], noise);
      assert e[1..] == Contexts(fs[1..]) + noise;
    }
  }

  /** What a commit appends to the text, and which part of the block it feeds. */
  lemma CommitPrefixes(limits: Limits, s: seq<Token>, block: seq<Token>, accepted: nat, bonus: Token, cut: nat)
    requires s != [] && |s| < limits.maxLength && accepted < |block| && s[|s| - 1] == block[0]
    requires var e := block[1..][..accepted] + [bonus];
      cut == limits.StopCut(e[..if |e| < limits.maxLength - |s| then |e| else limits.maxLength - |s|])
    ensures 1 <= cut <= accepted + 1
    ensures var e := block[1..][..accepted] + [bonus];
      && limits.Committed(s, e) == s + e[..cut]
      && (s + e[..cut])[..|s| - 1 + cut] == s[..|s| - 1] + block[..cut]
  {
    var e := block[1..][..accepted] + [bonus];
    var k := CommittedPrefix(limits, s, block[1..], accepted, bonus);
    assert (s + e[..cut])[..|s| - 1 + cut] == s + block[1..][..cut - 1];
    assert s == s[..|s| - 1] + [block[0]];
    assert block[..cut] == [block[0]] + block[1..][..cut - 1];
    assert s[..|s| - 1] + [block[0]] + block[1..][..cut - 1] == s[..|s| - 1] + block[..cut];
  }

  lemma PrefixOfSum(a: seq<Token>, b: seq<Token>, n: nat)
    requires n <= |b|
    ensures (a + b)[..|a| + n] == a + b[..n]
  {}

  /** The state of one run. `text` is the committed text up to and including `outputIds[start]`. */
  class Decoder<R(!new), F> {
    const m: Models<R, F>
    const limits: Limits
    const outputIds: array<Token>
    var target: seq<Token>
    var draftCache: seq<DraftEntry<F>>
    var hidden: seq<F>
    var start: nat
    var round: nat
    var stopped: bool
    var acceptanceLengths: seq<nat>
    ghost var text: seq<Token>

    ghost predicate Valid()
      reads this, outputIds
    {
      && m.Valid() && limits.blockSize >= 1
      && outputIds.Length == limits.maxLength + 1 && 0 < start <= limits.maxLength
      && outputIds[..start + 1] == text
      && (stopped <==> text[start] in limits.stop)
      && target == text[..start]
      && (limits.blockSize > 1 ==> draftCache + Contexts(hidden) == Contexts(m.Features([], text[..start])))
    }

    /** Prefill: the prompt and the first token. */
    constructor (m: Models<R, F>, prompt: seq<Token>, maxNew: nat, stop: set<Token>, blockSize: nat, mask: Token)
      requires m.Valid() && prompt != [] && blockSize >= 1
      ensures Valid() && fresh(outputIds)
      ensures this.m == m && limits == Limits(|prompt| + maxNew, stop, blockSize)
      ensures text == prompt + [m.first(m.row(prompt))] && round == 0 && acceptanceLengths == []
    {
      var n := |prompt|;
      var ids := new Token[n + maxNew + 1](_ => mask);
      forall i | 0 <= i < n { ids[i] := prompt[i]; }
      var token := m.first(m.row(prompt));
      ids[n] := token;
      this.m := m;
      limits := Limits(n + maxNew, stop, blockSize);
      outputIds := ids;
      target := CropTo(prompt, n);
      draftCache := [];
      hidden := if blockSize > 1 then m.Features([], prompt) else [];
      start := n;
      round := 0;
      stopped := token in stop;
      acceptanceLengths := [];
      text := prompt + [token];
      assert (prompt + [token])[..n] == prompt;
      assert [] + Contexts(m.Features([], prompt)) == Contexts(m.Features([], prompt));
    }

    /** The draft's share of a round: feed the new features and the noise block, propose, crop the noise away. */
    method Propose(verifySize: nat) returns (drafted: seq<Token>)
      requires Valid() && limits.blockSize > 1 && verifySize > 0
      modifies this`draftCache
      ensures drafted == m.Drafted(m.Features([], text[..start]), text[start], verifySize, round)
      ensures draftCache == Contexts(m.Features([], text[..start]))
    {
      ghost var context := m.Features([], text[..start]);
      draftCache := draftCache + (Contexts(hidden) + Noises(start, verifySize));
      assert draftCache == Contexts(context) + Noises(start, verifySize);
      FeaturesOfContexts(context, Noises(start, verifySize));
      drafted := m.Drafted(FeaturesOf(draftCache), outputIds[start], verifySize, round);
      draftCache := CropTo(draftCache, start);
      assert draftCache == Contexts(context);
    }

    /** Writes the accepted part of the block and the bonus token behind it. */
    method Write(block: seq<Token>, accepted: nat, bonus: Token)
      requires accepted < |block| && start + |block| < outputIds.Length && outputIds[start] == block[0]
      modifies outputIds
      ensures outputIds[..start + accepted + 2] == old(outputIds[..start + 1]) + (block[1..][..accepted] + [bonus])
      ensures outputIds[start + 1..start + accepted + 2] == block[1..][..accepted] + [bonus]
    {
      forall i | 0 <= i <= accepted { outputIds[start + i] := block[i]; }
      outputIds[start + accepted + 1] := bonus;
    }

    /** Commits a verified block: write it, then limit the advance by the length and the first stop token. */
    method Commit(block: seq<Token>, accepted: nat, bonus: Token) returns (produced: nat)
      requires outputIds.Length == limits.maxLength + 1 && start + 1 < limits.maxLength && !stopped
      requires outputIds[..start + 1] == text
      requires accepted < |block| && start + |block| <= limits.maxLength && text[start] == block[0]
      modifies outputIds, `stopped, `start, `text
      ensures 1 <= produced <= accepted + 1 && start == old(start) + produced < limits.maxLength
      ensures outputIds[..start + 1] == text
      ensures text == limits.Committed(old(text), block[1..][..accepted] + [bonus])
      ensures text[..start] == old(text[..start]) + block[..produced]
      ensures stopped <==> text[start] in limits.stop
    {
      hide Limits.Committed, Limits.StopCut;
      Write(block, accepted, bonus);
      var written := outputIds[start + 1..start + accepted + 2];
      assert outputIds[..start + accepted + 2] == text + written;
      var room := limits.maxLength - start - 1;
      produced := if accepted + 1 < room then accepted + 1 else room;
      var cut := limits.StopCut(written[..produced]);
      CommitPrefixes(limits, text, block, accepted, bonus, cut);
      PrefixOfSum(text, written, cut);
      assert outputIds[..start + cut + 1] == outputIds[..start + accepted + 2][..start + cut + 1];
      if written[..produced][cut - 1] in limits.stop {
        produced := cut;
        stopped := true;
      }
      assert produced == cut;
      text := text + written[..cut];
      start := start + cut;
    }

    /** The drafted tokens of a round; a block of one token is not drafted. */
    method Draft(verifySize: nat) returns (x: seq<Token>)
      requires Valid() && 0 < verifySize <= limits.blockSize
      modifies this`draftCache
      ensures x == if verifySize > 1 then m.Drafted(m.Features([], text[..start]), text[start], verifySize, round) else []
      ensures verifySize > 1 ==> draftCache == Contexts(m.Features([], text[..start]))
      ensures verifySize <= 1 ==> draftCache == old(draftCache)
    {
      x := [];
      if verifySize > 1 { x := Propose(verifySize); }
    }

    /** Target call, verification, commit and crop for the drafted tokens `x`. */
    method Verify(x: seq<Token>) returns (produced: nat, features: seq<F>)
      requires m.Valid() && outputIds.Length == limits.maxLength + 1 && start + 1 < limits.maxLength && !stopped
      requires 0 < start && start + 1 + |x| <= limits.maxLength
      requires outputIds[..start + 1] == text && target == text[..start]
      modifies outputIds, `target, `stopped, `start, `text
      ensures old(start) < start == old(start) + produced < limits.maxLength && produced <= 1 + |x|
      ensures outputIds[..start + 1] == text && target == text[..start]
      ensures stopped <==> text[start] in limits.stop
      ensures var block := [old(text[start])] + x;
        var verdict := m.verify(m.Rows(old(text[..start]), block), x, round);
        && text == limits.Committed(old(text), x[..verdict.0] + [verdict.1])
        && text[..start] == old(text[..start]) + block[..produced]
        && features == m.Features(old(text[..start]), block)
    {
      hide Limits.Committed, Limits.StopCut, Models.Features, Models.Rows;
      var block := [outputIds[start]] + x;
      var rows := m.Rows(target, block);
      features := m.Features(target, block);
      target := target + block;
      var verdict := m.verify(rows, x, round);
      assert block[1..] == x;
      produced := Commit(block, verdict.0, verdict.1);
      target := CropTo(target, start);
    }

    /** Draft and verify; the hidden states and counters of the round are still to be updated. */
    method Advance(verifySize: nat) returns (produced: nat, features: seq<F>, ghost block: seq<Token>)
      requires Valid() && start + 1 < limits.maxLength && !stopped && verifySize == limits.VerifySize(text)
      modifies this`draftCache, this`target, this`stopped, this`start, this`text, outputIds
      ensures old(start) < start == old(start) + produced < limits.maxLength && produced <= |block|
      ensures outputIds[..start + 1] == text && target == text[..start] && (stopped <==> text[start] in limits.stop)
      ensures text == limits.Committed(old(text), m.Emitted(old(text), verifySize, round))
      ensures text[..start] == old(text[..start]) + block[..produced]
      ensures features == m.Features(old(text[..start]), block)
      ensures verifySize > 1 ==> draftCache == Contexts(m.Features([], old(text[..start])))
      ensures verifySize <= 1 ==> draftCache == old(draftCache)
    {
      hide Limits.Committed, Limits.StopCut, Contexts, Models.Features, Models.Rows, Models.Drafted;
      var x := Draft(verifySize);
      block := [text[start]] + x;
      produced, features := Verify(x);
    }

    /** One round of the loop. */
    method Round()
      requires Valid() && start + 1 < limits.maxLength && !stopped
      modifies this, outputIds
      ensures Valid() && round == old(round) + 1
      ensures text == limits.Committed(old(text), m.Emitted(old(text), limits.VerifySize(old(text)), old(round)))
      ensures old(start) < start && acceptanceLengths == old(acceptanceLengths) + [|text| - |old(text)|]
    {
      hide Limits.Committed, Limits.StopCut, Contexts, Models.Features, Models.Emitted;
      var room := limits.maxLength - start;
      var verifySize := if limits.blockSize < room then limits.blockSize else room;
      ghost var committed := text[..start];
      var produced, features, block := Advance(verifySize);
      if verifySize > 1 {
        hidden := features[..produced];
        ContextsExtend(m, committed, block, text, produced);
      }
      round, acceptanceLengths := round + 1, acceptanceLengths + [produced];
    }

    /** The loop and the final trim. */
    method Run() returns (output: seq<Token>)
      requires Valid()
      modifies this, outputIds
      ensures output == m.Decode(limits, old(text), old(round))
      ensures acceptanceLengths == old(acceptanceLengths) + m.Advances(limits, old(text), old(round))
    {
      hide Limits.Committed, Limits.StopCut, Contexts, Models.Emitted;
      while start + 1 < limits.maxLength && !stopped
        invariant Valid()
        invariant m.Decode(limits, text, round) == m.Decode(limits, old(text), old(round))
        invariant acceptanceLengths + m.Advances(limits, text, round)
               == old(acceptanceLengths) + m.Advances(limits, old(text), old(round))
        decreases limits.maxLength - start
      {
        Round();
      }
      var last := if start + 1 < limits.maxLength then start + 1 else limits.maxLength;
      output := outputIds[..last];
      assert output == text[..last];
    }
  }

  /** `dflash_generate` on a non-empty prompt. */
  method Generate<R(!new), F>(m: Models<R, F>, prompt: seq<Token>, maxNew: nat, stop: set<Token>, blockSize: nat, mask: Token)
    returns (output: seq<Token>, acceptanceLengths: seq<nat>)
    requires m.Valid() && prompt != [] && blockSize >= 1
    ensures output == m.Decode(Limits(|prompt| + maxNew, stop, blockSize), prompt + [m.first(m.row(prompt))], 0)
    ensures acceptanceLengths == m.Advances(Limits(|prompt| + maxNew, stop, blockSize), prompt + [m.first(m.row(prompt))], 0)
  {
    var decoder := new Decoder(m, prompt, maxNew, stop, blockSize, mask);
    output := decoder.Run();
    acceptanceLengths := decoder.acceptanceLengths;
  }
}
