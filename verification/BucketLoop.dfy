/** The packing loop of `send_weights` on its two buffers, as one sequential run: what each post sees. */
module BucketLoop {
  import opened BucketPacking
  import opened BucketSender
  import opened WeightChunks

  /** A post: the metadata, the bytes of the buffer at that moment, and the last flag. */
  datatype Post = Post(metas: seq<TensorMeta>, contents: seq<byte>, isLast: bool)

  /** The posts announce the buckets in order and the buffers hold them. */
  ghost predicate Announces(posts: seq<Post>, buckets: seq<Bucket>) {
    && |posts| == |buckets|
    && forall k :: 0 <= k < |posts| ==> posts[k].metas == Metas(buckets[k]) && Holds(posts[k].contents, buckets[k])
  }

  /** What holds between two chunks. */
  ghost predicate LoopInv(chunks: seq<Chunk>, i: nat, bucketSize: nat, posts: seq<Post>, metas: seq<TensorMeta>, offset: nat,
                          contents: seq<byte>)
    requires i <= |chunks|
  {
    var p := Pack(chunks[..i], bucketSize);
    && Announces(posts, p.done) && (forall k :: 0 <= k < |posts| ==> !posts[k].isLast)
    && metas == Metas(p.current) && offset == p.offset && Holds(contents, p.current)
  }

  lemma LoopStart(chunks: seq<Chunk>, bucketSize: nat, contents: seq<byte>)
    ensures LoopInv(chunks, 0, bucketSize, [], [], 0, contents)
  {
    assert chunks[..0] == [];
  }

  /** What the post of an overflowing bucket, if any, leaves behind. */
  ghost predicate Ready(chunks: seq<Chunk>, i: nat, bucketSize: nat, posts: seq<Post>, metas: seq<TensorMeta>, offset: nat,
                        contents: seq<byte>)
    requires i < |chunks|
  {
    var p := Pack(chunks[..i], bucketSize);
    var q := if Overflows(p, chunks[i], bucketSize) then Flush(p) else p;
    && Announces(posts, q.done) && (forall k :: 0 <= k < |posts| ==> !posts[k].isLast)
    && metas == Metas(q.current) && offset == q.offset && Holds(contents, q.current)
  }

  lemma FlushReady(chunks: seq<Chunk>, i: nat, bucketSize: nat, posts: seq<Post>, metas: seq<TensorMeta>, offset: nat,
                   contents: seq<byte>, other: seq<byte>)
    requires i < |chunks| && LoopInv(chunks, i, bucketSize, posts, metas, offset, contents)
    ensures if offset + chunks[i].meta.chunkSize > bucketSize
            then Ready(chunks, i, bucketSize, posts + [Post(metas, contents, false)], [], 0, other)
            else Ready(chunks, i, bucketSize, posts, metas, offset, contents)
  {
    hide Pack, Holds;
    EmptyHolds(other);
  }

  lemma EmptyHolds(contents: seq<byte>)
    ensures Holds(contents, [])
  {}

  /** The two assertions of the loop hold, and writing the chunk keeps the invariant. */
  lemma FillStep(chunks: seq<Chunk>, i: nat, bucketSize: nat, posts: seq<Post>, metas: seq<TensorMeta>, offset: nat,
                 contents: seq<byte>)
    requires WellSplit(chunks, bucketSize) && i < |chunks| && |contents| == bucketSize
    requires Ready(chunks, i, bucketSize, posts, metas, offset, contents)
    ensures offset + chunks[i].meta.chunkSize <= bucketSize && |chunks[i].data| == chunks[i].meta.chunkSize
    ensures forall j :: 0 <= j < |metas| ==> metas[j].name != chunks[i].meta.name
    ensures LoopInv(chunks, i + 1, bucketSize, posts, metas + [chunks[i].meta.(offset := offset)],
                    offset + chunks[i].meta.chunkSize, Write(contents, offset, chunks[i].data))
  {
    hide Pack, Holds, Fits, Size, Write, Layout, StemsFrom, Announces;
    var before, c := chunks[..i], chunks[i];
    PrefixWellSplit(chunks, i, bucketSize);
    PackLayout(before, bucketSize);
    assert before + [c] == chunks[..i + 1];
    PrefixWellSplit(chunks, i + 1, bucketSize);
    var p := Pack(before, bucketSize);
    PlaceLayout(p, before, c, bucketSize);
    PackStep(chunks, i, bucketSize);
    var q := if Overflows(p, c, bucketSize) then Flush(p) else p;
    assert Fits(q.current, bucketSize) && q.offset == Size(q.current) by {
      LayoutFits(p, before, bucketSize);
      EmptyFits(bucketSize);
    }
    assert forall j :: 0 <= j < |metas| ==> metas[j] == q.current[j].meta;
    WriteHolds(contents, q.current, c, bucketSize);
    MetasAppend(q.current, c, offset);
  }

  lemma LayoutFits(p: PackState, chunks: seq<Chunk>, bucketSize: nat)
    requires Layout(p, chunks, bucketSize)
    ensures Fits(p.current, bucketSize) && p.offset == Size(p.current)
  {}

  lemma MetasAppend(b: Bucket, c: Chunk, offset: nat)
    ensures Metas(b + [Placed(c, offset)]) == Metas(b) + [c.meta.(offset := offset)]
  {}

  method SendBuckets(chunks: seq<Chunk>, bucketSize: nat, sendBuf: array<byte>, recvBuf: array<byte>) returns (posts: seq<Post>)
    requires WellSplit(chunks, bucketSize)
    requires sendBuf != recvBuf && sendBuf.Length == recvBuf.Length == bucketSize
    modifies sendBuf, recvBuf
    ensures Announces(posts, Buckets(chunks, bucketSize))
    ensures forall k :: 0 <= k < |posts| ==> (posts[k].isLast <==> k == |posts| - 1)
  {
    hide LoopInv, Ready, Announces, WellSplit;
    var send, recv := sendBuf, recvBuf;
    var metas: seq<TensorMeta>, offset: nat := [], 0;
    posts := [];
    LoopStart(chunks, bucketSize, send[..]);
    for i := 0 to |chunks|
      invariant {send, recv} == {sendBuf, recvBuf} && send != recv && send.Length == recv.Length == bucketSize
      invariant LoopInv(chunks, i, bucketSize, posts, metas, offset, send[..])
    {
      var c := chunks[i];
      FlushReady(chunks, i, bucketSize, posts, metas, offset, send[..], recv[..]);
      if offset + c.meta.chunkSize > bucketSize {
        posts := posts + [Post(metas, send[..], false)];
        send, recv := recv, send;
        metas, offset := [], 0;
      }
      FillStep(chunks, i, bucketSize, posts, metas, offset, send[..]);
      ghost var contents := send[..];
      metas := metas + [c.meta.(offset := offset)];
      forall k | 0 <= k < c.meta.chunkSize { send[offset + k] := c.data[k]; }
      assert send[..] == Write(contents, offset, c.data);
      offset := offset + c.meta.chunkSize;
    }
    LoopEnd(chunks, bucketSize, posts, metas, offset, send[..]);
    posts := posts + [Post(metas, send[..], true)];
  }

  lemma LoopEnd(chunks: seq<Chunk>, bucketSize: nat, posts: seq<Post>, metas: seq<TensorMeta>, offset: nat, contents: seq<byte>)
    requires LoopInv(chunks, |chunks|, bucketSize, posts, metas, offset, contents)
    ensures Announces(posts + [Post(metas, contents, true)], Buckets(chunks, bucketSize))
    ensures forall k :: 0 <= k < |posts| ==> !posts[k].isLast
  {
    hide Pack, Holds;
    assert chunks[..|chunks|] == chunks;
  }
}
