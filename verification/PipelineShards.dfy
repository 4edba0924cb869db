/** Distributing the layers of a model over the pipeline ranks of a Megatron checkpoint. */
module PipelineShards {
  import opened NatArithmetic

  /** `get_dynamic_pipeline_shards` returns the layers of each rank or raises. */
  datatype Shards = TooFewLayers | NoRanks | NoCandidate | Shards(sizes: seq<int>)

  function Sum(s: seq<int>): int {
    if s == [] then 0 else Sum(s[..|s| - 1]) + s[|s| - 1]
  }

  /** A split into non-empty shards whose fullest one is as small as any split allows. */
  ghost predicate IsFair(sizes: seq<int>, layers: nat, ranks: nat)
    requires ranks >= 1
  {
    && |sizes| == ranks && Sum(sizes) == layers
    && (forall i :: 0 <= i < ranks ==> 0 < sizes[i] <= CeilDiv(layers, ranks))
    && CeilDiv(layers, ranks) in sizes
  }

  /** Which rank gets how much: the ends differ by one at most, the first one being the smaller, and the middle is even. */
  ghost predicate IsArranged(sizes: seq<int>, layers: nat, ranks: nat)
    requires ranks >= 1
  {
    |sizes| == ranks && (ranks >= 2 ==>
      && sizes[0] <= sizes[ranks - 1] <= sizes[0] + 1
      && forall i :: 0 < i < ranks - 1 ==> sizes[i] == CeilDiv(layers, ranks))
  }

  /** The arrangement and the sum leave one list of sizes. */
  lemma ArrangedIsUnique(sizes: seq<int>, other: seq<int>, layers: nat, ranks: nat)
    requires ranks >= 1 && IsArranged(sizes, layers, ranks) && IsArranged(other, layers, ranks)
    requires Sum(sizes) == layers == Sum(other)
    ensures sizes == other
  {
    if ranks == 1 {
      assert sizes[..0] == [] == other[..0];
    } else {
      var c := CeilDiv(layers, ranks);
      hide CeilDiv;
      EndsAndMiddle(sizes, c);
      EndsAndMiddle(other, c);
    }
  }

  lemma EndsAndMiddle(s: seq<int>, c: int)
    requires |s| >= 2 && forall i :: 0 < i < |s| - 1 ==> s[i] == c
    ensures Sum(s) == s[0] + (|s| - 2) * c + s[|s| - 1]
  {
    var middle := seq(|s| - 2, i => c);
    assert s[..|s| - 1] == [s[0]] + middle;
    SumFront(s[0], middle);
    SumConstant(c, |s| - 2);
  }

  /** Layers left for the first and the last rank when every middle rank has `m`. */
  function Rest(layers: int, middle: int, m: int): int {
    layers - m * middle
  }

  predicate IsCandidate(layers: int, middle: int, m: int) {
    var first := Rest(layers, middle, m) / 2;
    var last := Rest(layers, middle, m) - first;
    0 < first <= m && 0 < last <= m
  }

  function Strategy(layers: nat, middle: nat, m: int): (seq<int>, int) {
    var first := Rest(layers, middle, m) / 2;
    ([first] + seq(middle, i => m) + [Rest(layers, middle, m) - first], Abs(first - m))
  }

  function Abs(n: int): int { if n < 0 then -n else n }

  lemma CeilBounds(layers: nat, ranks: nat)
    requires ranks >= 1
    ensures layers <= CeilDiv(layers, ranks) * ranks < layers + ranks
  {
    CeilDivBounds(layers, ranks);
  }

  lemma Product(m: int, n: int, k: int)
    requires m <= n && k >= 0
    ensures m * k <= n * k && m * (k + 2) == m * k + 2 * m
  {}

  /** A middle size works exactly when it reaches the even spread and leaves two layers for the ends. */
  lemma CandidateIff(layers: nat, middle: nat, m: int)
    requires layers >= 1 && middle >= 1
    ensures IsCandidate(layers, middle, m) <==> m >= CeilDiv(layers, middle + 2) && m * middle <= layers - 2
  {
    hide CeilDiv;
    ReachesIff(layers, middle + 2, m);
    Product(m, m, middle);
  }

  /** `m` layers on every rank suffice exactly when `m` reaches the rounded-up quotient. */
  lemma ReachesIff(layers: nat, ranks: nat, m: int)
    requires ranks >= 1
    ensures m >= CeilDiv(layers, ranks) <==> m * ranks >= layers
  {
    hide CeilDiv;
    var c: int := CeilDiv(layers, ranks);
    CeilBounds(layers, ranks);
    if m >= c { Product(c, m, ranks); } else { Product(m, c - 1, ranks); Less(c, ranks); }
  }

  lemma Less(c: int, ranks: nat)
    ensures (c - 1) * ranks == c * ranks - ranks
  {}

  /** No split has all shards below the even spread. */
  lemma {:induction false} SumBelow(sizes: seq<int>, bound: int)
    requires forall i :: 0 <= i < |sizes| ==> sizes[i] <= bound
    ensures Sum(sizes) <= |sizes| * bound
  {
    if sizes != [] {
      SumBelow(sizes[..|sizes| - 1], bound);
      assert |sizes| * bound == (|sizes| - 1) * bound + bound;
    }
  }

  lemma EverySplitHasALargeShard(sizes: seq<int>, layers: nat, ranks: nat)
    requires ranks >= 1 && |sizes| == ranks && Sum(sizes) == layers
    ensures exists i :: 0 <= i < ranks && sizes[i] >= CeilDiv(layers, ranks)
  {
    var c := CeilDiv(layers, ranks);
    CeilBounds(layers, ranks);
    assert ranks * (c - 1) == c * ranks - ranks;
    if forall i :: 0 <= i < ranks ==> sizes[i] <= c - 1 { SumBelow(sizes, c - 1); }
  }

  /** A fair split is optimal: no split of the same layers over the same ranks has a smaller fullest shard. */
  lemma FairIsOptimal(sizes: seq<int>, other: seq<int>, layers: nat, ranks: nat, limit: int)
    requires ranks >= 1 && IsFair(sizes, layers, ranks)
    requires |other| == ranks && Sum(other) == layers && forall i :: 0 <= i < ranks ==> other[i] <= limit
    ensures forall i :: 0 <= i < ranks ==> sizes[i] <= limit
  {
    EverySplitHasALargeShard(other, layers, ranks);
  }

  lemma {:induction false} SumConstant(m: int, n: nat)
    ensures Sum(seq(n, i => m)) == n * m
  {
    if n > 0 {
      SumConstant(m, n - 1);
      assert seq(n, i => m)[..n - 1] == seq(n - 1, i => m);
      assert n * m == (n - 1) * m + m;
    }
  }

  lemma StrategySum(layers: nat, middle: nat, m: int)
    ensures Sum(Strategy(layers, middle, m).0) == layers
  {
    var first := Rest(layers, middle, m) / 2;
    var mids := seq(middle, i => m);
    var s := [first] + mids + [Rest(layers, middle, m) - first];
    SumConstant(m, middle);
    assert s[..|s| - 1] == [first] + mids;
    SumFront(first, mids);
    assert m * middle == middle * m;
  }

  lemma {:induction false} SumFront(x: int, s: seq<int>)
    ensures Sum([x] + s) == x + Sum(s)
  {
    if s == [] {
      assert [x] + s == [x] && [x][..0] == [];
    } else {
      SumFront(x, s[..|s| - 1]);
      assert ([x] + s)[..|s|] == [x] + s[..|s| - 1];
    }
  }

  /** The candidate with the even spread is fair, and no later candidate is closer to uniform. */
  lemma EvenStrategyIsFair(layers: nat, middle: nat)
    requires layers >= 1 && middle >= 1 && IsCandidate(layers, middle, CeilDiv(layers, middle + 2))
    ensures IsFair(Strategy(layers, middle, CeilDiv(layers, middle + 2)).0, layers, middle + 2)
    ensures IsArranged(Strategy(layers, middle, CeilDiv(layers, middle + 2)).0, layers, middle + 2)
  {
    var c := CeilDiv(layers, middle + 2);
    StrategySum(layers, middle, c);
    assert Strategy(layers, middle, c).0[1] == c;
  }

  lemma LaterIsLessUniform(layers: nat, middle: nat, m: int, n: int)
    requires IsCandidate(layers, middle, m) && IsCandidate(layers, middle, n) && m <= n
    ensures Strategy(layers, middle, m).1 <= Strategy(layers, middle, n).1
  {
    Product(m, n, middle);
  }

  /** The first element of a stable sort by key. */
  method SortedFirst(s: seq<(seq<int>, int)>) returns (k: nat)
    requires s != []
    ensures k < |s|
    ensures forall i :: 0 <= i < |s| ==> s[k].1 <= s[i].1
    ensures forall i :: 0 <= i < k ==> s[k].1 < s[i].1
  {
    k := 0;
    for i := 1 to |s|
      invariant k < i
      invariant forall j :: 0 <= j < i ==> s[k].1 <= s[j].1
      invariant forall j :: 0 <= j < k ==> s[k].1 < s[j].1
    {
      if s[i].1 < s[k].1 { k := i; }
    }
  }

  /** For three ranks or more the search succeeds exactly when the even spread leaves two layers for the ends. */
  predicate Succeeds(layers: nat, ranks: nat)
    requires ranks >= 1
  {
    ranks <= 2 || CeilDiv(layers, ranks) * (ranks - 2) <= layers - 2
  }

  method GetDynamicPipelineShards(layerNum: int, ppSize: int) returns (r: Shards)
    ensures r == TooFewLayers <==> layerNum < ppSize
    ensures r == NoRanks <==> ppSize <= layerNum && ppSize < 1
    ensures 1 <= ppSize <= layerNum ==> (if Succeeds(layerNum, ppSize) then r.Shards? else r == NoCandidate)
    ensures r.Shards? ==> IsFair(r.sizes, layerNum, ppSize) && IsArranged(r.sizes, layerNum, ppSize)
  {
    if layerNum < ppSize { return TooFewLayers; }
    if ppSize < 1 { return NoRanks; }
    if ppSize == 1 {
      OneRank(layerNum);
      return Shards([layerNum]);
    }
    if ppSize == 2 {
      TwoRanks(layerNum);
      return Shards([layerNum / 2, layerNum - layerNum / 2]);
    }
    var middle: nat := ppSize - 2;
    ghost var c := CeilDiv(layerNum, ppSize);
    var strategies: seq<(seq<int>, int)> := [];
    for m := 0 to layerNum
      invariant m <= c || !IsCandidate(layerNum, middle, c) ==> strategies == []
      invariant m > c && IsCandidate(layerNum, middle, c) ==>
        strategies != [] && strategies[0] == Strategy(layerNum, middle, c)
      invariant forall i :: 0 <= i < |strategies| ==> strategies[0].1 <= strategies[i].1
    {
      CandidateIff(layerNum, middle, m);
      CandidateIff(layerNum, middle, c);
      if IsCandidate(layerNum, middle, m) {
        Product(c, m, middle);
        LaterIsLessUniform(layerNum, middle, c, m);
        strategies := strategies + [Strategy(layerNum, middle, m)];
      }
    }
    CandidateIff(layerNum, middle, c);
    CeilBounds(layerNum, ppSize);
    if strategies == [] { return NoCandidate; }
    EvenStrategyIsFair(layerNum, middle);
    var k := SortedFirst(strategies);
    r := Shards(strategies[k].0);
  }

  lemma OneRank(layers: nat)
    requires layers >= 1
    ensures IsFair([layers], layers, 1)
  {
    assert [layers][..0] == [];
  }

  lemma TwoRanks(layers: nat)
    requires layers >= 2
    ensures IsFair([layers / 2, layers - layers / 2], layers, 2)
  {
    var s := [layers / 2, layers - layers / 2];
    assert Sum(s) == Sum([layers / 2]) + s[1] by { assert s[..1] == [layers / 2]; }
    assert Sum([layers / 2]) == Sum([]) + layers / 2 by { assert [layers / 2][..0] == []; }
    assert s[1] == CeilDiv(layers, 2);
  }

  /** Five layers cannot be placed on four ranks. */
  lemma FiveLayersOnFourRanks()
    ensures !Succeeds(5, 4)
  {}
}
