/**
 * The sending side shared by the NCCL and NIXL engines: chunks are packed into one of two buffers while the
 * other may still be in flight; posting a bucket swaps the buffers.
 */
module BucketSender {
  import opened BucketPacking
  import opened WeightChunks

  /** What is sent ahead of a bucket: its number, the buffer it lies in, the metadata and the last flag. */
  datatype Message = Message(key: nat, buf: nat, metas: seq<TensorMeta>, isLast: bool)

  /** A transfer job: the chunks and the buffer size. */
  datatype Job = Job(chunks: seq<Chunk>, bucketSize: nat) {
    ghost predicate Valid() { WellSplit(chunks, bucketSize) }

    function All(): (r: seq<Bucket>)
      ensures r != []
    {
      Buckets(chunks, bucketSize)
    }

    function Count(): (n: nat)
      ensures n > 0
    {
      |All()|
    }

    /** The message that announces bucket `k` lying in buffer `buf`. */
    function Announce(k: nat, buf: nat): Message
      requires k < Count()
    {
      Message(k, buf, Metas(All()[k]), k == Count() - 1)
    }
  }

  function Metas(b: Bucket): (r: seq<TensorMeta>)
    ensures |r| == |b|
  {
    seq(|b|, i requires 0 <= i < |b| => b[i].meta)
  }

  datatype SenderPc = Filling | Draining | Finished

  /** `next` chunks are packed, `posted` buckets announced; `pending` is an unfinished post. */
  datatype Sender = Sender(pc: SenderPc, next: nat, posted: nat, pending: bool, send: nat,
                           bufs: seq<seq<byte>>, metas: seq<TensorMeta>, offset: nat) {

    ghost predicate Start(job: Job) {
      && pc == Filling && next == 0 && posted == 0 && !pending && send == 0
      && metas == [] && offset == 0 && TwoBuffers(bufs, job.bucketSize)
    }

    /** The loop wants to post: the next chunk does not fit, or there is none. */
    predicate AtPost(job: Job) {
      pc == Filling && (next >= |job.chunks| || offset + job.chunks[next].meta.chunkSize > job.bucketSize)
    }

    /** The chunk fits, lies inside the buffer, and its name is not in the bucket yet. */
    predicate CanFill(job: Job) {
      && pc == Filling && next < |job.chunks| && offset + job.chunks[next].meta.chunkSize <= job.bucketSize
      && send < |bufs| && offset + |job.chunks[next].data| <= |bufs[send]|
      && forall i :: 0 <= i < |metas| ==> metas[i].name != job.chunks[next].meta.name
    }

    /** Copy the next chunk behind the ones already in the buffer. */
    function Fill(job: Job): Sender
      requires CanFill(job)
    {
      var c := job.chunks[next];
      this.(next := next + 1,
            bufs := bufs[send := Write(bufs[send], offset, c.data)],
            metas := metas + [c.meta.(offset := offset)],
            offset := offset + c.meta.chunkSize)
    }

    predicate CanAwait(job: Job) {
      pending && (AtPost(job) || pc == Draining)
    }

    /** The previous post completed. */
    function Await(): Sender {
      this.(pending := false, pc := if pc == Draining then Finished else pc)
    }

    predicate CanPost(job: Job) {
      AtPost(job) && !pending
    }

    function Posting(job: Job): Message {
      Message(posted, send, metas, next >= |job.chunks|)
    }

    /** Announce the filled bucket; unless it is the last one, go on with the other buffer. */
    function Post(job: Job): Sender {
      if next >= |job.chunks| then this.(pc := Draining, posted := posted + 1, pending := true)
      else this.(posted := posted + 1, pending := true, send := 1 - (if send <= 1 then send else 1), metas := [], offset := 0)
    }

    /** The loop's view of the packing: the last post may have closed the bucket the next chunk overflows. */
    ghost function Packing(job: Job): PackState
      requires next <= |job.chunks|
    {
      var p := Pack(job.chunks[..next], job.bucketSize);
      if posted == |p.done| then p else Flush(p)
    }

    ghost predicate Inv(job: Job) {
      && send <= 1 && TwoBuffers(bufs, job.bucketSize) && next <= |job.chunks|
      && (pc == Filling ==>
           var p := Packing(job);
           && posted == |p.done| && p.done <= job.All() && |p.done| < job.Count()
           && metas == Metas(p.current) && offset == p.offset
           && offset == Size(p.current) && Fits(p.current, job.bucketSize) && Holds(bufs[send], p.current)
           && (posted != |Pack(job.chunks[..next], job.bucketSize).done| ==>
                next < |job.chunks| && Overflows(Pack(job.chunks[..next], job.bucketSize), job.chunks[next], job.bucketSize))
           && (pending ==> posted > 0 && Holds(bufs[1 - send], job.All()[posted - 1])))
      && (pc != Filling ==>
           next == |job.chunks| && posted == job.Count() && Holds(bufs[send], job.All()[posted - 1])
           && (pending <==> pc == Draining))
    }

    /** Posted buckets whose completion the sender has seen. */
    function Acked(): int { posted - (if pending then 1 else 0) }

    /** The buffer that may be in flight. */
    function Flight(): nat { if pc == Filling && send <= 1 then 1 - send else send }
  }

  ghost predicate TwoBuffers(bufs: seq<seq<byte>>, size: nat) {
    |bufs| == 2 && |bufs[0]| == size && |bufs[1]| == size
  }

  lemma StartInv(s: Sender, job: Job)
    requires s.Start(job)
    ensures s.Inv(job)
  {
    assert job.chunks[..0] == [];
    assert Size([]) == 0;
    PackMonotone(job.chunks, 0, job.bucketSize);
  }

  /** What filling places: the packing of one more chunk. */
  lemma FillPacks(s: Sender, job: Job)
    requires job.Valid() && s.Inv(job) && s.CanFill(job)
    ensures var p := s.Packing(job);
      && Pack(job.chunks[..s.next + 1], job.bucketSize) == Append(p, job.chunks[s.next])
      && s.Fill(job).Packing(job) == Append(p, job.chunks[s.next])
  {
    PackStep(job.chunks, s.next, job.bucketSize);
  }

  lemma FillInv(s: Sender, job: Job)
    requires job.Valid() && s.Inv(job) && s.CanFill(job)
    ensures s.Fill(job).Inv(job)
    ensures s.Fill(job).Acked() == s.Acked() && s.Fill(job).posted == s.posted && s.Fill(job).Flight() == s.Flight()
    ensures s.Fill(job).bufs[1 - s.send] == s.bufs[1 - s.send]
  {
    hide Holds, Fits, Size, Write, Pack, Buckets;
    var c, p, t := job.chunks[s.next], s.Packing(job), s.Fill(job);
    FillPacks(s, job);
    WriteHolds(s.bufs[s.send], p.current, c, job.bucketSize);
    PackMonotone(job.chunks, s.next + 1, job.bucketSize);
    PackLayout(job.chunks[..s.next + 1], job.bucketSize) by {
      PrefixWellSplit(job.chunks, s.next + 1, job.bucketSize);
    }
    assert t.metas == Metas(t.Packing(job).current);
  }

  lemma PrefixWellSplit(chunks: seq<Chunk>, n: nat, bucketSize: nat)
    requires WellSplit(chunks, bucketSize) && n <= |chunks|
    ensures WellSplit(chunks[..n], bucketSize)
  {}

  /** A chunk that still fits the open bucket has a name of its own there. */
  lemma FittingNameIsNew(job: Job, i: nat)
    requires job.Valid() && i < |job.chunks|
    requires !Overflows(Pack(job.chunks[..i], job.bucketSize), job.chunks[i], job.bucketSize)
    ensures var b := Pack(job.chunks[..i], job.bucketSize).current;
      forall k :: 0 <= k < |b| ==> b[k].meta.name != job.chunks[i].meta.name
  {
    hide Layout, Pack, Place;
    var before, c := job.chunks[..i], job.chunks[i];
    PrefixWellSplit(job.chunks, i, job.bucketSize);
    PackLayout(before, job.bucketSize);
    assert before + [c] == job.chunks[..i + 1];
    PrefixWellSplit(job.chunks, i + 1, job.bucketSize);
    PlaceLayout(Pack(before, job.bucketSize), before, c, job.bucketSize);
  }

  /** The assertions of the fill hold: it can go ahead whenever the loop gets there. */
  lemma FillAssertions(s: Sender, job: Job)
    requires job.Valid() && s.Inv(job) && s.pc == Filling && s.next < |job.chunks|
    requires s.offset == 0 || !s.AtPost(job)
    ensures s.CanFill(job)
  {
    hide Holds, Fits, Size, Pack, Buckets;
    var p := s.Packing(job);
    assert job.chunks[s.next].meta.chunkSize <= job.bucketSize;
    if s.posted == |Pack(job.chunks[..s.next], job.bucketSize).done| {
      FittingNameIsNew(job, s.next);
      forall i | 0 <= i < |s.metas| ensures s.metas[i].name != job.chunks[s.next].meta.name {
        assert s.metas[i] == p.current[i].meta;
      }
    }
  }

  /** Posting announces the next bucket of the packing, lying intact in the send buffer. */
  lemma PostInv(s: Sender, job: Job)
    requires job.Valid() && s.Inv(job) && s.CanPost(job)
    ensures s.Post(job).Inv(job) && s.posted < job.Count()
    ensures s.Posting(job) == job.Announce(s.posted, s.send)
    ensures s.Post(job).Flight() == s.send && s.Post(job).Acked() == s.posted && s.Post(job).posted == s.posted + 1
    ensures s.Post(job).bufs == s.bufs && Holds(s.bufs[s.send], job.All()[s.posted])
  {
    hide Holds, Fits, Size;
    var p := s.Packing(job);
    var plain := Pack(job.chunks[..s.next], job.bucketSize);
    PackMonotone(job.chunks, s.next, job.bucketSize);
    EmptySize();
    if s.next == |job.chunks| {
      assert job.chunks[..s.next] == job.chunks;
      assert job.All()[s.posted] == p.current;
    } else {
      assert job.chunks[s.next].meta.chunkSize <= job.bucketSize;
      assert s.posted == |plain.done|;
      assert Flush(plain).done[s.posted] == plain.current;
      assert s.Post(job).Packing(job) == Flush(plain);
    }
  }

  lemma EmptySize()
    ensures Size([]) == 0 && forall n: nat :: Fits([], n)
    ensures forall b: seq<byte> :: Holds(b, [])
  {}

  lemma AwaitInv(s: Sender, job: Job)
    requires s.Inv(job) && s.CanAwait(job)
    ensures s.Await().Inv(job) && s.Await().Acked() == s.posted == s.Await().posted
  {}
}
