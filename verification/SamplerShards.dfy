/** The indices each data-parallel rank trains on, with wrap-around padding to equal shards. */
module SamplerShards {
  import opened NatArithmetic
  import opened Permutations
  import opened Sequences

  function Repeat<T>(s: seq<T>, n: nat): seq<T> {
    if n == 0 then [] else Repeat(s, n - 1) + s
  }

  /** Every `step`-th element of `s` from `from` on. */
  function Stride<T>(s: seq<T>, from: nat, step: nat): seq<T>
    requires step > 0
    decreases if from < |s| then |s| - from else 0
  {
    if from >= |s| then [] else [s[from]] + Stride(s, from + step, step)
  }

  function Padded(indices: seq<nat>, total: nat): seq<nat>
    requires indices != [] && total >= |indices|
  {
    var padding := total - |indices|;
    if padding == 0 then indices
    else
      RepeatLength(indices, CeilDiv(padding, |indices|));
      CeilDivBounds(padding, |indices|);
      indices + Repeat(indices, CeilDiv(padding, |indices|))[..padding]
  }

  lemma {:induction false} RepeatLength<T>(s: seq<T>, n: nat)
    ensures |Repeat(s, n)| == Times(n, |s|)
  {
    TimesStep(n, |s|);
    if n > 0 { RepeatLength(s, n - 1); }
  }

  /** `perm` is the shuffled or plain order of the samples. */
  function SamplerIndices(size: int, rank: nat, ranks: nat, perm: seq<nat>): seq<nat>
    requires rank < ranks && (size > 0 ==> |perm| == size)
  {
    if size <= 0 then []
    else
      CeilDivBounds(size, ranks);
      var total := Times(CeilDiv(size, ranks), ranks);
      Stride(Padded(perm, total), rank, ranks)
  }

  // ---------------------------------------------------------------- the cyclic extension

  lemma {:induction false} RepeatIsCyclic(perm: seq<nat>, n: nat)
    requires perm != []
    ensures Repeat(perm, n) == Cyclic<nat>(perm, Times(n, |perm|))
  {
    RepeatLength(perm, n);
    TimesStep(n, |perm|);
    if n > 0 {
      RepeatIsCyclic(perm, n - 1);
      var before := Times(n - 1, |perm|);
      forall i: nat | before <= i < Times(n, |perm|) ensures Repeat(perm, n)[i] == At(perm, i) {
        QuotientUnique(i, |perm|, n - 1);
        Remainder(i, |perm|, n - 1);
      }
    }
  }

  lemma PaddedIsCyclic(perm: seq<nat>, total: nat)
    requires perm != [] && total >= |perm|
    ensures Padded(perm, total) == Cyclic<nat>(perm, total)
  {
    hide Times, Repeat, At;
    var size, padding := |perm|, total - |perm|;
    forall i: nat | i < size ensures At(perm, i) == perm[i] { AtWraps(perm, i); }
    if padding > 0 {
      var n := CeilDiv(padding, size);
      CeilDivBounds(padding, size);
      RepeatIsCyclic(perm, n);
      forall i: nat | size <= i < total ensures Padded(perm, total)[i] == At(perm, i) {
        AtWraps(perm, i - size);
      }
    }
  }

  lemma {:induction false} StrideAt<T>(s: seq<T>, from: nat, step: nat, n: nat, t: nat)
    requires step > 0 && |s| <= from + Times(n, step) < |s| + step
    ensures |Stride(s, from, step)| == n
    ensures t < n ==> from + Times(t, step) < |s| && Stride(s, from, step)[t] == s[from + Times(t, step)]
    decreases n
  {
    hide Times;
    TimesStep(n, step);
    if n > 0 {
      StrideAt(s, from + step, step, n - 1, if t > 0 then t - 1 else 0);
      TimesStep(t, step);
      if t < n { StrideBefore(n, t, step); }
    }
  }

  lemma StrideBefore(n: nat, t: nat, step: nat)
    requires t < n
    ensures Times(t, step) + step <= Times(n, step)
  {
    hide Times;
    GroupFits(t, n, step);
  }

  /**
   * Every rank gets the same number of indices, and entry `t` of rank `r` is entry `t * ranks + r` of the cyclic
   * extension of the order, which the ranks together cover exactly.
   */
  lemma ShardsInterleave(size: int, rank: nat, ranks: nat, perm: seq<nat>, t: nat)
    requires rank < ranks && 0 < size == |perm|
    ensures var c := CeilDiv(size, ranks);
      && |SamplerIndices(size, rank, ranks, perm)| == c
      && (t < c ==>
           && rank + Times(t, ranks) < Times(c, ranks)
           && SamplerIndices(size, rank, ranks, perm)[t] == Cyclic<nat>(perm, Times(c, ranks))[rank + Times(t, ranks)])
  {
    hide Times, Stride, Padded;
    var c := CeilDiv(size, ranks);
    CeilDivBounds(size, ranks);
    PaddedIsCyclic(perm, Times(c, ranks));
    StrideAt(Padded(perm, Times(c, ranks)), rank, ranks, c, t);
  }

  /** The index lists of all ranks, one after the other. */
  function AllIndices(size: int, ranks: nat, perm: seq<nat>): seq<nat>
    requires size > 0 ==> |perm| == size
  {
    Flatten<nat>(seq(ranks, r requires 0 <= r < ranks => SamplerIndices(size, r, ranks, perm)))
  }

  /** Adding one element to each of several lists adds these elements to their union. */
  lemma {:induction false} AppendEach(parts: seq<seq<nat>>, xs: seq<nat>, y: nat)
    requires |parts| == |xs|
    ensures multiset(Flatten<nat>(Longer(parts, xs)))[y] == multiset(Flatten<nat>(parts))[y] + multiset(xs)[y]
  {
    hide Flatten;
    if parts == [] {
      assert Longer(parts, xs) == parts;
    } else {
      var n := |parts| - 1;
      AppendEach(parts[..n], xs[..n], y);
      LongerStep(parts, xs);
      CountLast(Flatten<nat>(Longer(parts[..n], xs[..n])), parts[n], xs[n], y);
      CountLast(Flatten<nat>(parts[..n]), parts[n], xs[n], y);
      assert xs == xs[..n] + [xs[n]];
    }
  }

  function Longer(parts: seq<seq<nat>>, xs: seq<nat>): (r: seq<seq<nat>>)
    requires |parts| == |xs|
    ensures |r| == |parts|
  {
    seq(|parts|, i requires 0 <= i < |parts| => parts[i] + [xs[i]])
  }

  lemma LongerStep(parts: seq<seq<nat>>, xs: seq<nat>)
    requires |parts| == |xs| > 0
    ensures var n := |parts| - 1;
      && Flatten<nat>(Longer(parts, xs)) == Flatten<nat>(Longer(parts[..n], xs[..n])) + (parts[n] + [xs[n]])
      && Flatten<nat>(parts) == Flatten<nat>(parts[..n]) + parts[n]
  {
    var n := |parts| - 1;
    assert Longer(parts, xs)[..n] == Longer(parts[..n], xs[..n]);
  }

  lemma CountLast(a: seq<nat>, b: seq<nat>, x: nat, y: nat)
    ensures multiset(a + (b + [x]))[y] == multiset(a)[y] + multiset(b)[y] + (if x == y then 1 else 0)
    ensures multiset(a + b)[y] == multiset(a)[y] + multiset(b)[y]
  {}

  /** The first `n` entries of each rank's share of `e`. */
  function Shares(e: seq<nat>, ranks: nat, n: nat): (r: seq<seq<nat>>)
    requires Times(n, ranks) <= |e|
    ensures |r| == ranks
  {
    seq(ranks, r requires 0 <= r < ranks =>
      seq(n, t requires 0 <= t < n => (GroupFits(t, n, ranks); e[r + Times(t, ranks)])))
  }

  lemma {:induction false} NoShares(parts: seq<seq<nat>>)
    requires forall i :: 0 <= i < |parts| ==> parts[i] == []
    ensures Flatten<nat>(parts) == []
  {
    if parts != [] { NoShares(parts[..|parts| - 1]); }
  }

  /** Dealing out `n` rounds hands out exactly the first `n * ranks` entries. */
  lemma {:induction false} SharesCover(e: seq<nat>, ranks: nat, n: nat, y: nat)
    requires Times(n, ranks) <= |e|
    ensures multiset(Flatten<nat>(Shares(e, ranks, n)))[y] == multiset(e[..Times(n, ranks)])[y]
  {
    hide Times, Flatten;
    TimesStep(n, ranks);
    if n == 0 {
      NoShares(Shares(e, ranks, n));
      assert e[..Times(n, ranks)] == [];
    } else {
      var at := Times(n - 1, ranks);
      var round := e[at..at + ranks];
      SharesCover(e, ranks, n - 1, y);
      AppendEach(Shares(e, ranks, n - 1), round, y);
      OneMoreRound(e, ranks, n);
      assert e[..at + ranks] == e[..at] + round;
    }
  }

  lemma OneMoreRound(e: seq<nat>, ranks: nat, n: nat)
    requires n > 0 && Times(n, ranks) <= |e|
    ensures Times(n, ranks) == Times(n - 1, ranks) + ranks
    ensures var before, at := Shares(e, ranks, n - 1), Times(n - 1, ranks);
      Shares(e, ranks, n) == Longer(before, e[at..at + ranks])
  {
    hide Times;
    TimesStep(n, ranks);
    forall r | 0 <= r < ranks
      ensures Shares(e, ranks, n)[r] == Shares(e, ranks, n - 1)[r] + [e[Times(n - 1, ranks)..Times(n - 1, ranks) + ranks][r]]
    {}
  }

  /** The ranks together hold exactly the entries of the cyclic extension. */
  lemma ShardsAreExtension(size: int, ranks: nat, perm: seq<nat>)
    requires 0 < size == |perm| && ranks > 0
    ensures multiset(AllIndices(size, ranks, perm)) == multiset(Cyclic<nat>(perm, Times(CeilDiv(size, ranks), ranks)))
  {
    hide Times, SamplerIndices, Flatten, Cyclic;
    var c := CeilDiv(size, ranks);
    var e := Cyclic<nat>(perm, Times(c, ranks));
    forall r: nat | r < ranks ensures SamplerIndices(size, r, ranks, perm) == Shares(e, ranks, c)[r] {
      ShardsInterleave(size, r, ranks, perm, 0);
      forall t: nat | t < c ensures SamplerIndices(size, r, ranks, perm)[t] == Shares(e, ranks, c)[r][t] {
        ShardsInterleave(size, r, ranks, perm, t);
      }
    }
    assert seq(ranks, r requires 0 <= r < ranks => SamplerIndices(size, r, ranks, perm)) == Shares(e, ranks, c);
    assert AllIndices(size, ranks, perm) == Flatten<nat>(Shares(e, ranks, c));
    assert e[..Times(c, ranks)] == e;
    forall y: nat ensures multiset(Flatten<nat>(Shares(e, ranks, c)))[y] == multiset(e)[y] {
      SharesCover(e, ranks, c, y);
    }
  }

  // ---------------------------------------------------------------- multiplicities

  lemma DivModStep(n: nat, size: nat)
    requires size > 0
    ensures if n % size == size - 1 then (n + 1) / size == n / size + 1 && (n + 1) % size == 0
            else (n + 1) / size == n / size && (n + 1) % size == n % size + 1
  {
    hide Times;
    var q := n / size;
    Quotient(n, size);
    Remainder(n, size, q);
    TimesStep(q, size);
    if n % size == size - 1 {
      QuotientUnique(n + 1, size, q + 1);
      Remainder(n + 1, size, q + 1);
    } else {
      QuotientUnique(n + 1, size, q);
      Remainder(n + 1, size, q);
    }
  }

  /** How often position `p` comes up in the first `n` entries: once per full cycle, once more when the last one reaches it. */
  function CycleCount(n: nat, size: nat, p: nat): nat
    requires size > 0
  {
    n / size + (if p < n % size then 1 else 0)
  }

  lemma {:induction false} CyclicCount(perm: seq<nat>, n: nat, p: nat)
    requires IsPermutation(perm, |perm|) && p < |perm|
    ensures multiset(Cyclic<nat>(perm, n))[perm[p]] == CycleCount(n, |perm|, p)
  {
    hide At, IsPermutation, CycleCount;
    if n == 0 {
      assert Cyclic<nat>(perm, 0) == [];
      NoEntries(|perm|, p);
    } else {
      CyclicCount(perm, n - 1, p);
      var before, x := Cyclic<nat>(perm, n - 1), At(perm, n - 1);
      assert Cyclic<nat>(perm, n) == before + [x];
      assert multiset(before + [x])[perm[p]] == multiset(before)[perm[p]] + (if x == perm[p] then 1 else 0);
      NextEntry(perm, n - 1, p);
    }
  }

  lemma NoEntries(size: nat, p: nat)
    requires size > 0
    ensures CycleCount(0, size, p) == 0
  {}

  /** Whether one more entry is the sample at `p`, and what that does to the count. */
  lemma NextEntry(perm: seq<nat>, n: nat, p: nat)
    requires IsPermutation(perm, |perm|) && p < |perm|
    ensures CycleCount(n + 1, |perm|, p) == CycleCount(n, |perm|, p) + (if At(perm, n) == perm[p] then 1 else 0)
  {
    var r := n % |perm|;
    assert perm[r] == perm[p] <==> r == p;
    DivModStep(n, |perm|);
  }

  /** Over all ranks every sample is used, and no sample is used more than once more often than another. */
  lemma CoverageIsBalanced(perm: seq<nat>, ranks: nat, x: nat, y: nat)
    requires IsPermutation(perm, |perm|) && ranks > 0 && x < |perm| && y < |perm|
    ensures var all := multiset(AllIndices(|perm|, ranks, perm)); all[x] >= 1 && all[x] <= all[y] + 1
  {
    PermutationCovers(perm, |perm|, x);
    PermutationCovers(perm, |perm|, y);
    var p: nat :| p < |perm| && perm[p] == x;
    var q: nat :| q < |perm| && perm[q] == y;
    ShardsAreExtension(|perm|, ranks, perm);
    hide AllIndices;
    hide Times, Cyclic;
    var total := Times(CeilDiv(|perm|, ranks), ranks);
    CeilDivBounds(|perm|, ranks);
    CyclicCount(perm, total, p);
    CyclicCount(perm, total, q);
    AtLeastOnce(total, |perm|);
  }

  lemma AtLeastOnce(total: nat, size: nat)
    requires 0 < size <= total
    ensures total / size >= 1
  {
    hide Times;
    Quotient(total, size);
    TimesStep(0, size);
  }
}
