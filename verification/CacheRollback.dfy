/**
 * Target caches of the MLX backend. An attention layer keeps one entry per token; a gated delta-net layer
 * keeps a convolution window and a folded state, and can only be rolled back by replaying its captured
 * inputs. Rolling back is compared with never having fed the rejected tokens.
 */
module CacheRollback {

  /** A layer: plain attention, or a recurrence with a causal convolution of width `kernel`. */
  datatype Layer = Attention | Recurrent(kernel: nat)

  datatype LayerCache<X, S> = Trimmable(entries: seq<X>) | Fixed(conv: seq<X>, state: S)

  /** What a recurrent layer captures in one forward call. */
  datatype Capture<X, S> = Capture(convInput: seq<X>, kernel: nat, inputs: seq<X>, initState: S) {
    /** Holds enough inputs to replay `accepted + 1` tokens. */
    predicate Complete(accepted: nat) {
      kernel >= 1 && accepted < |inputs| && |convInput| == kernel - 1 + |inputs|
    }
  }

  /** `step(state, window, input)` is the delta-net update of one token; `window` is its convolution window. */
  type Step<!X, !S> = (S, seq<X>, X) -> S

  /** Fold of the update over `inputs`; the window of input `i` starts at `convInput[i]`. */
  function Fold<X, S>(step: Step<X, S>, kernel: nat, state: S, convInput: seq<X>, inputs: seq<X>): S
    requires kernel >= 1 && |convInput| == kernel - 1 + |inputs|
    decreases |inputs|
  {
    if inputs == [] then state
    else
      var last := |inputs| - 1;
      step(Fold(step, kernel, state, convInput[..|convInput| - 1], inputs[..last]), convInput[last..], inputs[last])
  }

  /** The Python slice `s[-k:]`: the last `k` entries, or all of `s` when `k` is zero or too large. */
  function LastSlice<X>(s: seq<X>, k: nat): seq<X> {
    if k == 0 || k >= |s| then s else s[|s| - k..]
  }

  /** Forward call of a recurrent layer on the inputs of a block. */
  function Forward<X, S>(step: Step<X, S>, kernel: nat, cache: LayerCache<X, S>, inputs: seq<X>): (r: LayerCache<X, S>)
    requires kernel >= 1 && cache.Fixed? && |cache.conv| == kernel - 1
    ensures r.Fixed?
  {
    var convInput := cache.conv + inputs;
    Fixed(LastSlice(convInput, kernel - 1), Fold(step, kernel, cache.state, convInput, inputs))
  }

  function Captured<X, S>(kernel: nat, cache: LayerCache<X, S>, inputs: seq<X>): Capture<X, S>
    requires cache.Fixed?
  {
    Capture(cache.conv + inputs, kernel, inputs, cache.state)
  }

  /** Rollback of a recurrent layer: replay the first `accepted + 1` inputs, cut the convolution window. */
  function Replay<X, S>(step: Step<X, S>, c: Capture<X, S>, accepted: nat): (r: LayerCache<X, S>)
    requires c.Complete(accepted)
    ensures r.Fixed?
  {
    var n := accepted + 1;
    Fixed(c.convInput[accepted + 1..accepted + c.kernel],
          Fold(step, c.kernel, c.initState, c.convInput[..c.kernel - 1 + n], c.inputs[..n]))
  }

  /**
   * Rolling back to `accepted` accepted drafts equals having fed only those tokens and the anchor exactly
   * when the kernel is wider than one: with a kernel of one the forward call keeps its whole input as the
   * next window, while the rollback keeps nothing.
   */
  lemma RollbackEqualsNeverSpeculating<X, S>(step: Step<X, S>, kernel: nat, cache: LayerCache<X, S>,
                                             inputs: seq<X>, accepted: nat)
    requires kernel >= 1 && cache.Fixed? && |cache.conv| == kernel - 1 && accepted < |inputs|
    ensures (Replay(step, Captured(kernel, cache, inputs), accepted)
             == Forward(step, kernel, cache, inputs[..accepted + 1])) <==> kernel >= 2
  {
    var n := accepted + 1;
    var convInput := cache.conv + inputs;
    assert convInput[..kernel - 1 + n] == cache.conv + inputs[..n];
    var kept := cache.conv + inputs[..n];
    if kernel >= 2 {
      assert convInput[n..n + kernel - 1] == kept[|kept| - (kernel - 1)..];
    } else {
      assert LastSlice(kept, 0) == kept && |kept| == n;
      assert |convInput[n..n + kernel - 1]| == 0;
    }
  }

  // ---------------------------------------------------------------- caches that stand for a token sequence

  /** The inputs a layer computes, position by position; each depends on the tokens up to it. */
  function Inputs<X>(input: (nat, seq<nat>) -> X, layer: nat, fed: seq<nat>, block: seq<nat>): (r: seq<X>)
    ensures |r| == |block|
  {
    seq(|block|, i requires 0 <= i < |block| => input(layer, fed + block[..i + 1]))
  }

  /** The values of `f` after each token of `block`, fed behind `fed`. */
  function Positions<R>(f: seq<nat> -> R, fed: seq<nat>, block: seq<nat>): (r: seq<R>)
    ensures |r| == |block|
  {
    seq(|block|, i requires 0 <= i < |block| => f(fed + block[..i + 1]))
  }

  lemma InputsSplit<X>(input: (nat, seq<nat>) -> X, layer: nat, fed: seq<nat>, a: seq<nat>, b: seq<nat>)
    ensures Inputs(input, layer, fed, a + b) == Inputs(input, layer, fed, a) + Inputs(input, layer, fed + a, b)
  {
    forall i | 0 <= i < |a| + |b|
      ensures Inputs(input, layer, fed, a + b)[i]
           == (Inputs(input, layer, fed, a) + Inputs(input, layer, fed + a, b))[i]
    {
      if i < |a| {
        assert (a + b)[..i + 1] == a[..i + 1];
      } else {
        assert (a + b)[..i + 1] == a + b[..i - |a| + 1];
        assert fed + (a + b[..i - |a| + 1]) == fed + a + b[..i - |a| + 1];
      }
    }
  }

  /**
   * A target model. `input`, `row` and `feature` say what a layer's input, the logits and the hidden state
   * of a token are when everything before it was fed in order; `run`, `logits` and `hidden` compute them for
   * a block from the caches alone.
   */
  datatype Network<!X, !S, !R, !F> = Network(
    layers: seq<Layer>, zero: X, init: S, step: Step<X, S>,
    input: (nat, seq<nat>) -> X, row: seq<nat> -> R, feature: seq<nat> -> F,
    run: (seq<LayerCache<X, S>>, seq<nat>, nat) -> seq<X>,
    logits: (seq<LayerCache<X, S>>, seq<nat>) -> seq<R>,
    hidden: (seq<LayerCache<X, S>>, seq<nat>) -> seq<F>)
  {
    /** Every kernel is wide enough for the window slice to keep exactly `kernel - 1` entries. */
    ghost predicate WideKernels() {
      forall l :: 0 <= l < |layers| && layers[l].Recurrent? ==> layers[l].kernel >= 2
    }

    /** On caches that stand for `fed`, the model computes what it would compute on the whole text. */
    ghost predicate Valid() {
      && WideKernels()
      && (forall fed, block, l: nat :: l < |layers| ==> run(FreshAll(fed), block, l) == Inputs(input, l, fed, block))
      && (forall fed, block :: logits(FreshAll(fed), block) == Positions(row, fed, block))
      && (forall fed, block :: hidden(FreshAll(fed), block) == Positions(feature, fed, block))
    }

    ghost function FreshAll(fed: seq<nat>): (r: seq<LayerCache<X, S>>)
      requires WideKernels()
      ensures |r| == |layers|
    {
      seq(|layers|, l requires 0 <= l < |layers| => Fresh(l, fed))
    }

    function Padding(kernel: nat): (r: seq<X>)
      requires kernel >= 1
      ensures |r| == kernel - 1
    {
      seq(kernel - 1, _ => zero)
    }

    /** The cache of layer `l` after plain feeding of `fed`, from scratch and without rejected tokens. */
    ghost function Fresh(l: nat, fed: seq<nat>): LayerCache<X, S>
      requires l < |layers| && (layers[l].Recurrent? ==> layers[l].kernel >= 1)
    {
      var xs := Inputs(input, l, [], fed);
      match layers[l]
      case Attention => Trimmable(xs)
      case Recurrent(k) =>
        var convInput := Padding(k) + xs;
        Fixed(convInput[|xs|..], Fold(step, k, init, convInput, xs))
    }

    /** Forward call of layer `l` on a block; `xs` are its inputs. */
    function Feed(l: nat, cache: LayerCache<X, S>, xs: seq<X>): LayerCache<X, S>
      requires l < |layers| && Fits(l, cache)
    {
      match layers[l]
      case Attention => Trimmable(cache.entries + xs)
      case Recurrent(k) => Forward(step, k, cache, xs)
    }

    predicate Fits(l: nat, cache: LayerCache<X, S>)
      requires l < |layers|
    {
      match layers[l]
      case Attention => cache.Trimmable?
      case Recurrent(k) => k >= 1 && cache.Fixed? && |cache.conv| == k - 1
    }

    /** Feeding a block to a fresh cache gives the fresh cache of the longer text. */
    lemma FeedIsFresh(l: nat, fed: seq<nat>, block: seq<nat>)
      requires WideKernels() && l < |layers|
      ensures Fits(l, Fresh(l, fed))
      ensures Feed(l, Fresh(l, fed), Inputs(input, l, fed, block)) == Fresh(l, fed + block)
    {
      var a, b := Inputs(input, l, [], fed), Inputs(input, l, fed, block);
      InputsSplit(input, l, [], fed, block);
      assert [] + fed == fed;
      match layers[l]
      case Attention =>
      case Recurrent(k) =>
        var window := (Padding(k) + a)[|a|..];
        assert window + b == (Padding(k) + (a + b))[|a|..];
        FoldSplit(step, k, init, Padding(k) + (a + b), a, b);
        assert (Padding(k) + (a + b))[..k - 1 + |a|] == Padding(k) + a;
        assert LastSlice(window + b, k - 1) == (Padding(k) + (a + b))[|a + b|..];
    }
  }

  /** One token: the state makes one step on the window with the token in it, and the window moves on by one. */
  lemma ForwardOne<X, S>(step: Step<X, S>, kernel: nat, cache: LayerCache<X, S>, x: X)
    requires kernel >= 2 && cache.Fixed? && |cache.conv| == kernel - 1
    ensures Forward(step, kernel, cache, [x]) == Fixed(cache.conv[1..] + [x], step(cache.state, cache.conv + [x], x))
  {
    var convInput := cache.conv + [x];
    assert convInput[0..] == convInput && [x][..0] == [];
    assert Fold(step, kernel, cache.state, convInput[..kernel - 1], []) == cache.state;
    assert LastSlice(convInput, kernel - 1) == cache.conv[1..] + [x];
  }

  /** A block does what its tokens do one after the other. */
  lemma ForwardInTurn<X, S>(step: Step<X, S>, kernel: nat, cache: LayerCache<X, S>, a: seq<X>, b: seq<X>)
    requires kernel >= 2 && cache.Fixed? && |cache.conv| == kernel - 1
    ensures Forward(step, kernel, cache, []) == cache
    ensures Forward(step, kernel, cache, a + b) == Forward(step, kernel, Forward(step, kernel, cache, a), b)
  {
    var all, window := cache.conv + (a + b), LastSlice(cache.conv + a, kernel - 1);
    assert cache.conv + [] == cache.conv;
    assert all[..kernel - 1 + |a|] == cache.conv + a;
    assert all[|a|..] == window + b;
    FoldSplit(step, kernel, cache.state, all, a, b);
    assert LastSlice(all, kernel - 1) == LastSlice(window + b, kernel - 1);
  }

  /** Folding a concatenation is folding its parts in turn. */
  lemma {:induction false} FoldSplit<X, S>(step: Step<X, S>, kernel: nat, state: S, convInput: seq<X>, a: seq<X>, b: seq<X>)
    requires kernel >= 1 && |convInput| == kernel - 1 + |a| + |b|
    ensures Fold(step, kernel, state, convInput, a + b)
         == Fold(step, kernel, Fold(step, kernel, state, convInput[..kernel - 1 + |a|], a), convInput[|a|..], b)
    decreases |b|
  {
    if b == [] {
      assert a + b == a;
      assert convInput[..kernel - 1 + |a|] == convInput;
    } else {
      var init, last := b[..|b| - 1], |b| - 1;
      var shorter := convInput[..|convInput| - 1];
      FoldSplit(step, kernel, state, shorter, a, init);
      assert (a + b)[..|a + b| - 1] == a + init;
      assert shorter[..kernel - 1 + |a|] == convInput[..kernel - 1 + |a|];
      assert shorter[|a|..] == convInput[|a|..][..|convInput[|a|..]| - 1];
      assert convInput[|a|..][last..] == convInput[|a + b| - 1..];
    }
  }

  // ---------------------------------------------------------------- the caches of a whole model

  function CountFixed<X, S>(caches: seq<LayerCache<X, S>>): nat {
    if caches == [] then 0
    else CountFixed(caches[..|caches| - 1]) + (if caches[|caches| - 1].Fixed? then 1 else 0)
  }

  class Target<X, S, R, F> {
    const net: Network<X, S, R, F>
    var caches: seq<LayerCache<X, S>>
    var captures: seq<Capture<X, S>>
    ghost var fed: seq<nat>

    /** Every cache is the one plain feeding of `fed` would have built. */
    ghost predicate Valid()
      reads this
    {
      net.Valid() && caches == net.FreshAll(fed)
    }

    /** The captures of the first `n` layers in a forward call on `block` after `before`. */
    ghost function CapturesOf(before: seq<nat>, block: seq<nat>, n: nat): seq<Capture<X, S>>
      requires net.WideKernels() && n <= |net.layers|
    {
      if n == 0 then []
      else
        CapturesOf(before, block, n - 1) + CaptureOf(before, block, n - 1)
    }

    lemma {:induction false} CapturesPrefix(before: seq<nat>, block: seq<nat>, i: nat, n: nat)
      requires net.WideKernels() && i <= n <= |net.layers|
      ensures CapturesOf(before, block, i) <= CapturesOf(before, block, n)
    {
      if i < n { CapturesPrefix(before, block, i, n - 1); }
    }

    lemma CapturesStart(before: seq<nat>, block: seq<nat>)
      requires net.WideKernels()
      ensures CapturesOf(before, block, 0) == []
    {}

    lemma CapturesStep(before: seq<nat>, block: seq<nat>, l: nat)
      requires net.WideKernels() && l < |net.layers|
      ensures CapturesOf(before, block, l + 1) == CapturesOf(before, block, l) + CaptureOf(before, block, l)
    {}

    ghost function CaptureOf(before: seq<nat>, block: seq<nat>, l: nat): seq<Capture<X, S>>
      requires net.WideKernels() && l < |net.layers|
    {
      match net.layers[l]
      case Attention => []
      case Recurrent(k) => [Captured(k, net.Fresh(l, before), Inputs(net.input, l, before, block))]
    }

    lemma {:induction false} CapturesCount(before: seq<nat>, block: seq<nat>, now: seq<nat>, n: nat)
      requires net.WideKernels() && n <= |net.layers|
      ensures CountFixed(net.FreshAll(now)[..n]) == |CapturesOf(before, block, n)|
    {
      if n > 0 {
        CapturesCount(before, block, now, n - 1);
        assert net.FreshAll(now)[..n][..n - 1] == net.FreshAll(now)[..n - 1];
      }
    }

    constructor (net: Network<X, S, R, F>)
      requires net.Valid()
      ensures Valid() && fed == [] && this.net == net
    {
      this.net := net;
      captures := [];
      fed := [];
      new;
      caches := [];
      for l := 0 to |net.layers|
        invariant |caches| == l && this.net == net && fed == []
        invariant forall i :: 0 <= i < l ==> caches[i] == net.Fresh(i, [])
      {
        var cache := match net.layers[l]
          case Attention => Trimmable([])
          case Recurrent(k) => Fixed(net.Padding(k), net.init);
        caches := caches + [cache];
      }
    }

    /** A forward call on a block: extend every cache, capture the recurrent layers' inputs. */
    method Call(block: seq<nat>) returns (rows: seq<R>, features: seq<F>)
      requires Valid()
      modifies this
      ensures Valid() && fed == old(fed) + block
      ensures captures == CapturesOf(old(fed), block, |net.layers|)
      ensures rows == Positions(net.row, old(fed), block) && features == Positions(net.feature, old(fed), block)
    {
      hide CapturesOf, Network.Fresh, Network.Feed, Inputs;
      rows, features := net.logits(caches, block), net.hidden(caches, block);
      var start := caches;
      captures := [];
      CapturesStart(fed, block);
      for l := 0 to |start|
        invariant |caches| == |start| == |net.layers| && fed == old(fed) && start == net.FreshAll(fed)
        invariant captures == CapturesOf(fed, block, l)
        invariant forall i :: 0 <= i < l ==> caches[i] == net.Fresh(i, fed + block)
        invariant forall i :: l <= i < |caches| ==> caches[i] == net.Fresh(i, fed)
      {
        var xs := net.run(start, block, l);
        net.FeedIsFresh(l, fed, block);
        CapturesStep(fed, block, l);
        match net.layers[l] {
          case Attention =>
          case Recurrent(k) => captures := captures + [Captured(k, caches[l], xs)];
        }
        caches := caches[l := net.Feed(l, caches[l], xs)];
      }
      fed := fed + block;
    }

    /** Trimming an attention cache by the rejected tokens undoes them. */
    lemma TrimIsFresh(l: nat, before: seq<nat>, block: seq<nat>, n: nat)
      requires l < |net.layers| && net.layers[l].Attention? && n <= |block|
      ensures var c := net.Fresh(l, before + block);
        && |c.entries| >= |block| - n
        && Trimmable(c.entries[..|c.entries| - (|block| - n)]) == net.Fresh(l, before + block[..n])
    {
      assert before + block == (before + block[..n]) + block[n..];
      InputsSplit(net.input, l, [], before + block[..n], block[n..]);
    }

    /** Replaying a capture undoes the rejected tokens of a recurrent layer. */
    lemma ReplayIsFresh(l: nat, before: seq<nat>, block: seq<nat>, accepted: nat)
      requires net.WideKernels() && l < |net.layers| && net.layers[l].Recurrent? && accepted < |block|
      ensures Replay(net.step, Captured(net.layers[l].kernel, net.Fresh(l, before), Inputs(net.input, l, before, block)), accepted)
           == net.Fresh(l, before + block[..accepted + 1])
    {
      var xs := Inputs(net.input, l, before, block);
      net.FeedIsFresh(l, before, block[..accepted + 1]);
      RollbackEqualsNeverSpeculating(net.step, net.layers[l].kernel, net.Fresh(l, before), xs, accepted);
      InputsSplit(net.input, l, before, block[..accepted + 1], block[accepted + 1..]);
      assert block == block[..accepted + 1] + block[accepted + 1..];
      assert xs[..accepted + 1] == Inputs(net.input, l, before, block[..accepted + 1]);
    }

    /** What rolling back layer `l` reads and yields; `j` counts the captures of the layers before it. */
    lemma LayerRollback(before: seq<nat>, block: seq<nat>, accepted: nat, l: nat)
      requires net.WideKernels() && l < |net.layers| && accepted < |block|
      ensures var cache := net.Fresh(l, before + block);
        var kept := before + block[..accepted + 1];
        var captures := CapturesOf(before, block, |net.layers|);
        var j := |CapturesOf(before, block, l)|;
        if cache.Trimmable? then
          && |cache.entries| >= |block| - accepted - 1
          && Trimmable(cache.entries[..|cache.entries| - (|block| - accepted - 1)]) == net.Fresh(l, kept)
          && |CapturesOf(before, block, l + 1)| == j
        else
          && j < |captures| && |CapturesOf(before, block, l + 1)| == j + 1
          && captures[j].Complete(accepted)
          && Replay(net.step, captures[j], accepted) == net.Fresh(l, kept)
    {
      CapturesPrefix(before, block, l + 1, |net.layers|);
      if net.layers[l].Attention? {
        TrimIsFresh(l, before, block, accepted + 1);
      } else {
        ReplayIsFresh(l, before, block, accepted);
        assert CapturesOf(before, block, |net.layers|)[|CapturesOf(before, block, l)|]
            == CapturesOf(before, block, l + 1)[|CapturesOf(before, block, l)|];
      }
    }

    /** `rollback`: trim the trimmable caches and replay the others, in capture order. */
    method Rollback(accepted: nat, trim: nat, ghost before: seq<nat>, ghost block: seq<nat>)
      requires Valid() && fed == before + block && captures == CapturesOf(before, block, |net.layers|)
      requires accepted < |block| && trim == |block| - accepted - 1
      modifies this
      ensures Valid() && fed == before + block[..accepted + 1]
    {
      hide CapturesOf, Network.Fresh, Replay, Capture.Complete;
      ghost var start := caches;
      var j := 0;
      CapturesStart(before, block);
      CapturesCount(before, block, fed, |net.layers|);
      assert start[..|start|] == start;
      assert CountFixed(caches) == |captures|;
      for l := 0 to |caches|
        invariant |caches| == |start| == |net.layers| && start == net.FreshAll(before + block)
        invariant fed == before + block && captures == CapturesOf(before, block, |net.layers|)
        invariant j == |CapturesOf(before, block, l)|
        invariant forall i :: 0 <= i < l ==> caches[i] == net.Fresh(i, before + block[..accepted + 1])
        invariant forall i :: l <= i < |caches| ==> caches[i] == start[i]
      {
        LayerRollback(before, block, accepted, l);
        var cache := caches[l];
        if cache.Trimmable? {
          caches := caches[l := Trimmable(cache.entries[..|cache.entries| - trim])];
        } else {
          caches := caches[l := Replay(net.step, captures[j], accepted)];
          j := j + 1;
        }
      }
      fed := before + block[..accepted + 1];
    }

    /** `_trim_recent_cache` on a target whose caches are all trimmable. */
    method TrimRecent(trim: nat, ghost before: seq<nat>, ghost block: seq<nat>)
      requires Valid() && fed == before + block && trim <= |block|
      requires forall l :: 0 <= l < |net.layers| ==> net.layers[l].Attention?
      modifies this
      ensures Valid() && fed == before + block[..|block| - trim]
    {
      var start := caches;
      for l := 0 to |start|
        invariant |caches| == |start| == |net.layers| && start == net.FreshAll(before + block) && fed == before + block
        invariant forall i :: 0 <= i < l ==> caches[i] == net.Fresh(i, before + block[..|block| - trim])
        invariant forall i :: l <= i < |caches| ==> caches[i] == start[i]
      {
        TrimIsFresh(l, before, block, |block| - trim);
        var offset := |caches[l].entries|;
        var n := if offset < trim then offset else trim;
        caches := caches[l := Trimmable(caches[l].entries[..offset - n])];
      }
      fed := before + block[..|block| - trim];
    }
  }
}
