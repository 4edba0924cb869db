/** The receiving side shared by the NCCL and NIXL engines: yield the bucket in one buffer, receive into the other. */
module BucketReceiver {
  import opened BucketPacking
  import opened BucketSender
  import opened Sequences
  import opened WeightChunks

  /** Bucket `k` lies in `bufs[send]` and `j` of its chunks are yielded; `bufs[1 - send]` is free for the next one. */
  datatype Window = Window(k: nat, send: nat, bufs: seq<seq<byte>>, metas: seq<TensorMeta>, isLast: bool,
                           yielded: seq<Chunk>, j: nat) {

    ghost predicate Empty(job: Job) {
      Shape(job) && k == 0 && yielded == [] && j == 0
    }

    ghost predicate Shape(job: Job) {
      TwoBuffers(bufs, job.bucketSize) && send <= 1
    }

    /** Everything yielded so far is the sender's, and the current bucket is intact. */
    ghost predicate HasBucket(job: Job) {
      && Shape(job) && k < job.Count() && metas == Metas(job.All()[k]) && isLast == (k == job.Count() - 1)
      && Holds(bufs[send], job.All()[k])
      && j <= |metas| && yielded == Flatten(job.All()[..k]) + job.All()[k][..j]
    }

    /** Bucket `m` has arrived in the other buffer. */
    ghost predicate Incoming(job: Job, m: nat) {
      Shape(job) && m < job.Count() && Holds(bufs[1 - send], job.All()[m])
    }

    predicate CanReceive(data: seq<byte>) {
      send <= 1 && |bufs| == 2 && |data| == |bufs[1 - send]|
    }

    function Receive(data: seq<byte>): Window
      requires CanReceive(data)
    {
      this.(bufs := bufs[1 - send := data])
    }

    predicate CanYield() {
      && j < |metas| && send < |bufs| && metas[j].offset + metas[j].chunkSize <= |bufs[send]|
    }

    function Yield(): Window
      requires CanYield()
    {
      this.(yielded := yielded + [Chunk(metas[j], View(bufs[send], metas[j]))], j := j + 1)
    }

    /** Swap the buffers after the first receive. */
    function First(nextMetas: seq<TensorMeta>, nextLast: bool): Window
      requires send <= 1
    {
      this.(send := 1 - send, metas := nextMetas, isLast := nextLast)
    }

    /** Swap the buffers after a later receive. */
    function Next(nextMetas: seq<TensorMeta>, nextLast: bool): Window
      requires send <= 1
    {
      this.(k := k + 1, send := 1 - send, metas := nextMetas, isLast := nextLast, j := 0)
    }
  }

  lemma FlattenUpTo(buckets: seq<Bucket>, k: nat)
    requires k < |buckets|
    ensures Flatten(buckets[..k + 1]) == Flatten(buckets[..k]) + buckets[k]
  {
    assert buckets[..k + 1] == buckets[..k] + [buckets[k]];
    FlattenAppend(buckets[..k], buckets[k]);
  }

  lemma FlattenNothing(buckets: seq<Bucket>)
    ensures Flatten(buckets[..0]) == []
  {}

  lemma {:induction false} FlattenPrefix(buckets: seq<Bucket>, k: nat, j: nat)
    requires k < |buckets| && j <= |buckets[k]|
    ensures Flatten(buckets[..k]) + buckets[k][..j] <= Flatten(buckets)
  {
    var last := |buckets| - 1;
    if k < last {
      FlattenPrefix(buckets[..last], k, j);
      assert buckets[..last][..k] == buckets[..k];
    }
  }

  /** Receiving leaves the current bucket alone. */
  lemma ReceiveKeeps(job: Job, w: Window, data: seq<byte>)
    requires w.Shape(job) && |data| == job.bucketSize
    ensures w.CanReceive(data) && w.Receive(data).Shape(job)
    ensures w.HasBucket(job) ==> w.Receive(data).HasBucket(job)
    ensures w.Empty(job) ==> w.Receive(data).Empty(job)
    ensures forall m: nat :: m < job.Count() && Holds(data, job.All()[m]) ==> w.Receive(data).Incoming(job, m)
  {
    hide Holds, Flatten, Buckets;
  }

  /** Every view of the current bucket is the chunk the sender packed. */
  lemma ViewIsChunk(job: Job, w: Window, c: nat)
    requires w.HasBucket(job) && c < |w.metas|
    ensures |w.metas| == |job.All()[w.k]| && w.metas[c].offset + w.metas[c].chunkSize <= |w.bufs[w.send]|
    ensures Chunk(w.metas[c], View(w.bufs[w.send], w.metas[c])) == job.All()[w.k][c]
  {
    hide Flatten, Buckets, View;
    assert w.metas[c] == job.All()[w.k][c].meta;
  }

  lemma YieldKeeps(job: Job, w: Window)
    requires w.HasBucket(job) && w.j < |w.metas|
    ensures w.CanYield() && w.Yield().HasBucket(job)
  {
    hide Flatten, Buckets, View, Holds;
    ViewIsChunk(job, w, w.j);
    var b := job.All()[w.k];
    assert b[..w.j + 1] == b[..w.j] + [b[w.j]];
  }

  lemma FirstKeeps(job: Job, w: Window)
    requires w.Empty(job) && w.Incoming(job, 0)
    ensures w.First(Metas(job.All()[0]), job.Count() == 1).HasBucket(job)
  {
    hide Flatten, Buckets, Holds;
    FlattenNothing(job.All());
  }

  lemma NextKeeps(job: Job, w: Window)
    requires w.HasBucket(job) && w.j == |w.metas| && w.Incoming(job, w.k + 1)
    ensures w.Next(Metas(job.All()[w.k + 1]), w.k + 1 == job.Count() - 1).HasBucket(job)
  {
    hide Flatten, Buckets, Holds;
    assert job.All()[w.k][..w.j] == job.All()[w.k];
    FlattenUpTo(job.All(), w.k);
  }

  /** What is yielded is a prefix of all chunks, and all of them after the last bucket. */
  lemma YieldedPrefix(job: Job, w: Window)
    requires w.HasBucket(job)
    ensures w.yielded <= Flatten(job.All())
    ensures w.isLast && w.j == |w.metas| ==> w.yielded == Flatten(job.All())
  {
    hide Flatten, Buckets, Holds;
    var b := job.All();
    FlattenPrefix(b, w.k, w.j);
    if w.isLast && w.j == |w.metas| {
      FlattenUpTo(b, w.k);
      assert b[..w.k + 1] == b && b[w.k][..w.j] == b[w.k];
    }
  }
}
