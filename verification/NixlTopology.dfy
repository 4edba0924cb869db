/** How the NIXL engine wires the chain: positions in the metadata list become the neighbours of every worker. */
module NixlTopology {
  import opened Options

  // ---------------------------------------------------------------- list slices with negative bounds

  function Bound(n: nat, i: int): nat {
    if i < 0 then (if n + i < 0 then 0 else n + i) else if i < n then i else n
  }

  function Slice<T>(s: seq<T>, lo: int, hi: int): seq<T> {
    var a, b := Bound(|s|, lo), Bound(|s|, hi);
    if a <= b then s[a..b] else []
  }

  function SliceFrom<T>(s: seq<T>, lo: int): seq<T> {
    s[Bound(|s|, lo)..]
  }

  function Item<T>(s: seq<T>, i: int): T
    requires -|s| <= i < |s|
  {
    if i < 0 then s[|s| + i] else s[i]
  }

  function Repeat<T>(x: T, n: int): seq<T> {
    seq(if n < 0 then 0 else n, i => x)
  }

  function Somes<T>(s: seq<T>): seq<Option<T>> {
    seq(|s|, i requires 0 <= i < |s| => Some(s[i]))
  }

  // ---------------------------------------------------------------- build_topology

  /** One keyword argument per list, one entry per worker. */
  datatype Wiring<M> = Wiring(rank: seq<int>, worldSize: seq<int>, prev: seq<Option<M>>, next: seq<Option<M>>) {
    /** The process group builder insists on one entry per worker. */
    predicate Covers(workers: nat) {
      |rank| == |worldSize| == |prev| == |next| == workers
    }
  }

  function TrainerWiring<M>(trainers: nat, rollouts: nat, metadata: seq<M>): Wiring<M>
    requires |metadata| == trainers + rollouts > 0
  {
    Wiring([0] + Repeat(-1, trainers - 1), Repeat(rollouts + 1, trainers), Repeat(None, trainers),
           [Some(Item(metadata, 0 - rollouts))] + Repeat(None, trainers - 1))
  }

  function RolloutWiring<M>(trainers: nat, rollouts: nat, metadata: seq<M>): Wiring<M>
    requires |metadata| == trainers + rollouts > 0
  {
    Wiring(seq(rollouts, i => i + 1), Repeat(rollouts + 1, rollouts),
           Somes([metadata[0]] + Slice(metadata, 0 - rollouts, -1)),
           Somes(SliceFrom(metadata, 1 - rollouts)) + [None])
  }

  /** The neighbour checks each worker makes when it joins. */
  predicate Joins<M>(w: Wiring<M>, i: nat)
    requires w.Covers(|w.rank|) && i < |w.rank|
  {
    var rank, world, prev, next := w.rank[i], w.worldSize[i], w.prev[i], w.next[i];
    if rank < 0 then prev.None? && next.None?
    else if rank == 0 then prev.None? && next.Some?
    else if rank < world - 1 then prev.Some? && next.Some?
    else if rank == world - 1 then prev.Some? && next.None?
    else true
  }

  /**
   * Trainer 0 feeds the first rollout worker, each rollout worker feeds the next, the last feeds nobody, and
   * the other trainers take no part.
   */
  ghost predicate IsChain<M>(trainers: nat, rollouts: nat, metadata: seq<M>)
    requires |metadata| == trainers + rollouts > 0
  {
    var t, q := TrainerWiring(trainers, rollouts, metadata), RolloutWiring(trainers, rollouts, metadata);
    && t.Covers(trainers) && q.Covers(rollouts)
    && (forall i: nat :: i < trainers ==>
         && Joins(t, i) && t.rank[i] == (if i == 0 then 0 else -1)
         && t.next[i] == (if i == 0 && rollouts > 0 then Some(metadata[trainers]) else None))
    && (forall i: nat :: i < rollouts ==>
         && Joins(q, i) && q.rank[i] == i + 1
         && q.prev[i] == Some(if i == 0 then metadata[0] else metadata[trainers + i - 1])
         && q.next[i] == (if i + 1 < rollouts then Some(metadata[trainers + i + 1]) else None))
  }

  /** The wiring is a chain exactly when there is a trainer and there are two or more rollout workers. */
  lemma ChainNeedsTwoRollouts<M>(trainers: nat, rollouts: nat, metadata: seq<M>)
    requires |metadata| == trainers + rollouts > 0
    ensures IsChain(trainers, rollouts, metadata) <==> trainers >= 1 && rollouts >= 2
  {
    var q := RolloutWiring(trainers, rollouts, metadata);
    if rollouts == 1 {
      assert SliceFrom(metadata, 0) == metadata;
    } else if rollouts == 0 {
      assert |q.prev| == 1 + |Slice(metadata, 0, -1)|;
    }
  }

  /** With one rollout worker the list of successors has an entry too many. */
  lemma OneRolloutHasTooManySuccessors<M>(trainers: nat, metadata: seq<M>)
    requires |metadata| == trainers + 1
    ensures |RolloutWiring(trainers, 1, metadata).next| == trainers + 2 && !RolloutWiring(trainers, 1, metadata).Covers(1)
  {
    assert SliceFrom(metadata, 0) == metadata;
  }
}
