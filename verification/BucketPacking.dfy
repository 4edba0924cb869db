/** Packing chunks into buckets of `bucketSize` bytes, in the order they arrive. */
module BucketPacking {
  import opened Sequences
  import opened WeightChunks

  /** The chunks of one bucket, their metadata carrying the offset inside it. */
  type Bucket = seq<Chunk>

  /** The buckets posted so far, the bucket being filled and its fill level. */
  datatype PackState = PackState(done: seq<Bucket>, current: Bucket, offset: nat)

  function Placed(c: Chunk, offset: nat): Chunk {
    c.(meta := c.meta.(offset := offset))
  }

  predicate Overflows(s: PackState, c: Chunk, bucketSize: nat) {
    s.offset + c.meta.chunkSize > bucketSize
  }

  /** Close the current bucket. */
  function Flush(s: PackState): PackState {
    PackState(s.done + [s.current], [], 0)
  }

  function Append(s: PackState, c: Chunk): PackState {
    PackState(s.done, s.current + [Placed(c, s.offset)], s.offset + c.meta.chunkSize)
  }

  /** One iteration of the packing loop. */
  function Place(s: PackState, c: Chunk, bucketSize: nat): PackState {
    Append(if Overflows(s, c, bucketSize) then Flush(s) else s, c)
  }

  function Pack(chunks: seq<Chunk>, bucketSize: nat): PackState {
    if chunks == [] then PackState([], [], 0)
    else Place(Pack(chunks[..|chunks| - 1], bucketSize), chunks[|chunks| - 1], bucketSize)
  }

  /** All buckets, the last one included. */
  function Buckets(chunks: seq<Chunk>, bucketSize: nat): (r: seq<Bucket>)
    ensures r != []
  {
    Flush(Pack(chunks, bucketSize)).done
  }

  lemma PackStep(chunks: seq<Chunk>, i: nat, bucketSize: nat)
    requires i < |chunks|
    ensures Pack(chunks[..i + 1], bucketSize) == Place(Pack(chunks[..i], bucketSize), chunks[i], bucketSize)
  {
    assert chunks[..i + 1][..i] == chunks[..i];
  }

  /** A closed bucket never changes again, and the bucket being filled only grows. */
  lemma {:induction false} PackMonotone(chunks: seq<Chunk>, i: nat, bucketSize: nat)
    requires i <= |chunks|
    ensures Pack(chunks[..i], bucketSize).done <= Buckets(chunks, bucketSize)
    ensures |Pack(chunks[..i], bucketSize).done| < |Buckets(chunks, bucketSize)|
    ensures i < |chunks| && Overflows(Pack(chunks[..i], bucketSize), chunks[i], bucketSize) ==>
      && Flush(Pack(chunks[..i], bucketSize)).done <= Buckets(chunks, bucketSize)
      && |Flush(Pack(chunks[..i], bucketSize)).done| < |Buckets(chunks, bucketSize)|
    decreases |chunks| - i
  {
    if i == |chunks| {
      assert chunks[..i] == chunks;
    } else {
      PackStep(chunks, i, bucketSize);
      PackMonotone(chunks, i + 1, bucketSize);
    }
  }

  // ---------------------------------------------------------------- layout

  function Size(b: Bucket): nat {
    if b == [] then 0 else Size(b[..|b| - 1]) + b[|b| - 1].meta.chunkSize
  }

  /** Chunks lie behind one another from offset zero and stay inside the bucket. */
  ghost predicate Fits(b: Bucket, bucketSize: nat) {
    && Size(b) <= bucketSize
    && forall i :: 0 <= i < |b| ==> b[i].meta.offset == Size(b[..i]) && |b[i].data| == b[i].meta.chunkSize
  }

  ghost predicate DistinctNames(b: seq<Chunk>) {
    forall i, j :: 0 <= i < j < |b| ==> b[i].meta.name != b[j].meta.name
  }

  /** What splitting guarantees: chunks fit a bucket, and a chunk followed by one of its weight fills it. */
  ghost predicate WellSplit(chunks: seq<Chunk>, bucketSize: nat) {
    && (forall i :: 0 <= i < |chunks| ==>
         0 < chunks[i].meta.chunkSize <= bucketSize && |chunks[i].data| == chunks[i].meta.chunkSize
         && chunks[i].meta.offset == 0)
    && (forall i, j :: 0 <= i < j < |chunks| && chunks[i].meta.name == chunks[j].meta.name ==>
         chunks[i].meta.chunkSize == bucketSize)
  }

  lemma {:induction false} ChunksFromWellSplit(w: Weight, bucketSize: nat, start: nat)
    requires bucketSize > 0 && start <= |w.bytes|
    ensures WellSplit(ChunksFrom(w, bucketSize, start), bucketSize)
    ensures forall i :: 0 <= i < |ChunksFrom(w, bucketSize, start)| ==>
      ChunksFrom(w, bucketSize, start)[i].meta.name == w.name
    decreases |w.bytes| - start
  {
    if start < |w.bytes| {
      ChunksFromWellSplit(w, bucketSize, start + Min(bucketSize, |w.bytes| - start));
    }
  }

  lemma {:induction false} SplitNames(weights: seq<Weight>, bucketSize: nat, i: nat)
    requires bucketSize > 0 && i < |Split(weights, bucketSize)|
    ensures exists k :: 0 <= k < |weights| && weights[k].name == Split(weights, bucketSize)[i].meta.name
  {
    var first := ChunksFrom(weights[0], bucketSize, 0);
    ChunksFromWellSplit(weights[0], bucketSize, 0);
    if i < |first| {
      assert weights[0].name == Split(weights, bucketSize)[i].meta.name;
    } else {
      SplitNames(weights[1..], bucketSize, i - |first|);
      var k :| 0 <= k < |weights[1..]| && weights[1..][k].name == Split(weights[1..], bucketSize)[i - |first|].meta.name;
      assert weights[k + 1].name == Split(weights, bucketSize)[i].meta.name;
    }
  }

  /** Chunks of distinctly named weights are well split. */
  lemma {:induction false} SplitWellSplit(weights: seq<Weight>, bucketSize: nat)
    requires bucketSize > 0
    requires forall i, j :: 0 <= i < j < |weights| ==> weights[i].name != weights[j].name
    ensures WellSplit(Split(weights, bucketSize), bucketSize)
  {
    if weights != [] {
      var first, rest := ChunksFrom(weights[0], bucketSize, 0), Split(weights[1..], bucketSize);
      ChunksFromWellSplit(weights[0], bucketSize, 0);
      SplitWellSplit(weights[1..], bucketSize);
      var all := Split(weights, bucketSize);
      forall i, j | 0 <= i < |first| <= j < |all| ensures all[i].meta.name != all[j].meta.name {
        SplitNames(weights[1..], bucketSize, j - |first|);
      }
      forall i, j | 0 <= i < j < |all| && all[i].meta.name == all[j].meta.name
        ensures all[i].meta.chunkSize == bucketSize
      {
        if j < |first| {
          assert first[i] == all[i] && first[j] == all[j];
        } else {
          assert rest[i - |first|] == all[i] && rest[j - |first|] == all[j];
        }
      }
    }
  }

  /** `c` is one of `chunks`, except for its offset. */
  ghost predicate ComesFrom(c: Chunk, chunks: seq<Chunk>) {
    exists i :: 0 <= i < |chunks| && chunks[i] == Placed(c, 0)
  }

  lemma {:induction false} SizeAt(b: Bucket, i: nat)
    requires i < |b|
    ensures Size(b[..i]) + b[i].meta.chunkSize <= Size(b)
  {
    if i < |b| - 1 {
      SizeAt(b[..|b| - 1], i);
      assert b[..|b| - 1][..i] == b[..i];
    }
  }

  /** Placing the next chunk keeps the layout, and its name is new in its bucket. */
  lemma PlaceFits(b: Bucket, c: Chunk, bucketSize: nat)
    requires Fits(b, bucketSize) && DistinctNames(b) && Size(b) + c.meta.chunkSize <= bucketSize
    requires |c.data| == c.meta.chunkSize > 0
    requires forall i :: 0 <= i < |b| && b[i].meta.name == c.meta.name ==> b[i].meta.chunkSize == bucketSize
    ensures Fits(b + [Placed(c, Size(b))], bucketSize) && DistinctNames(b + [Placed(c, Size(b))])
    ensures forall i :: 0 <= i < |b| ==> b[i].meta.name != c.meta.name
  {
    forall i | 0 <= i < |b| ensures b[i].meta.name != c.meta.name {
      SizeAt(b, i);
    }
    var r := b + [Placed(c, Size(b))];
    assert r[..|b|] == b;
    forall i | 0 <= i < |r| ensures r[i].meta.offset == Size(r[..i]) && |r[i].data| == r[i].meta.chunkSize {
      if i < |b| { assert r[..i] == b[..i]; }
    }
  }

  /** Every chunk of the current bucket stems from the chunks placed so far. */
  ghost predicate StemsFrom(b: Bucket, chunks: seq<Chunk>) {
    forall i :: 0 <= i < |b| ==> ComesFrom(b[i], chunks)
  }

  /**
   * The layout at every loop head: closed buckets are non-empty, every bucket fits and names its chunks
   * apart, and the fill level is the size of the current bucket.
   */
  ghost predicate Layout(s: PackState, chunks: seq<Chunk>, bucketSize: nat) {
    && s.offset == Size(s.current) && (chunks == [] <==> s.current == [])
    && Fits(s.current, bucketSize) && DistinctNames(s.current) && StemsFrom(s.current, chunks)
    && forall k :: 0 <= k < |s.done| ==>
         s.done[k] != [] && Fits(s.done[k], bucketSize) && DistinctNames(s.done[k])
  }

  /** One iteration keeps the layout; the two assertions of the loop hold when the chunk is placed. */
  lemma PlaceLayout(s: PackState, before: seq<Chunk>, c: Chunk, bucketSize: nat)
    requires WellSplit(before + [c], bucketSize) && Layout(s, before, bucketSize)
    ensures Layout(Place(s, c, bucketSize), before + [c], bucketSize)
    ensures var t := if Overflows(s, c, bucketSize) then Flush(s) else s;
      && t.offset + c.meta.chunkSize <= bucketSize
      && forall i :: 0 <= i < |t.current| ==> t.current[i].meta.name != c.meta.name
  {
    hide Layout, StemsFrom;
    assert (before + [c])[|before|] == c;
    if Overflows(s, c, bucketSize) {
      FlushLayout(s, before, c, bucketSize);
    } else {
      SameNameIsFull(s.current, before, c, before + [c], bucketSize) by { LayoutStems(s, before, bucketSize); }
      AppendLayout(s, before, c, bucketSize);
    }
  }

  lemma LayoutStems(s: PackState, before: seq<Chunk>, bucketSize: nat)
    requires Layout(s, before, bucketSize)
    ensures StemsFrom(s.current, before)
  {}

  /** Appending a chunk that fits behind the current bucket. */
  lemma AppendLayout(s: PackState, before: seq<Chunk>, c: Chunk, bucketSize: nat)
    requires Layout(s, before, bucketSize) && !Overflows(s, c, bucketSize)
    requires |c.data| == c.meta.chunkSize > 0 && c.meta.offset == 0
    requires forall i :: 0 <= i < |s.current| && s.current[i].meta.name == c.meta.name ==> s.current[i].meta.chunkSize == bucketSize
    ensures Layout(Append(s, c), before + [c], bucketSize)
    ensures forall i :: 0 <= i < |s.current| ==> s.current[i].meta.name != c.meta.name
  {
    hide Fits, Size, ComesFrom, DistinctNames;
    PlaceFits(s.current, c, bucketSize);
    SizeAppend(s.current, Placed(c, s.offset));
    StemsFromLonger(s.current, before, c, before + [c]);
  }

  /** Closing the bucket and starting the next one with a chunk that did not fit. */
  lemma FlushLayout(s: PackState, before: seq<Chunk>, c: Chunk, bucketSize: nat)
    requires Layout(s, before, bucketSize) && Overflows(s, c, bucketSize)
    requires |c.data| == c.meta.chunkSize > 0 && c.meta.offset == 0 && c.meta.chunkSize <= bucketSize
    ensures Layout(Append(Flush(s), c), before + [c], bucketSize)
  {
    hide Fits, Size, ComesFrom, DistinctNames;
    EmptyFits(bucketSize);
    PlaceFits([], c, bucketSize);
    SizeAppend([], Placed(c, 0));
    StemsFromLonger([], before, c, before + [c]);
    assert [] + [Placed(c, 0)] == [Placed(c, 0)];
  }

  lemma EmptyFits(bucketSize: nat)
    ensures Fits([], bucketSize) && Size([]) == 0 && DistinctNames([])
  {}

  lemma SizeAppend(b: Bucket, c: Chunk)
    ensures Size(b + [c]) == Size(b) + c.meta.chunkSize
  {
    assert (b + [c])[..|b|] == b;
  }

  lemma {:induction false} PackLayout(chunks: seq<Chunk>, bucketSize: nat)
    requires WellSplit(chunks, bucketSize)
    ensures Layout(Pack(chunks, bucketSize), chunks, bucketSize)
  {
    hide Fits, DistinctNames, StemsFrom, Place;
    if chunks == [] {
      EmptyFits(bucketSize);
      EmptyLayout(bucketSize);
    } else {
      var before, c := chunks[..|chunks| - 1], chunks[|chunks| - 1];
      PackLayout(before, bucketSize);
      assert before + [c] == chunks;
      PlaceLayout(Pack(before, bucketSize), before, c, bucketSize);
    }
  }

  lemma EmptyLayout(bucketSize: nat)
    ensures Layout(Pack([], bucketSize), [], bucketSize)
  {}

  lemma StemsFromLonger(b: Bucket, before: seq<Chunk>, c: Chunk, chunks: seq<Chunk>)
    requires StemsFrom(b, before) && chunks == before + [c] && c.meta.offset == 0
    ensures StemsFrom(b, chunks) && forall o: nat :: ComesFrom(Placed(c, o), chunks)
  {
    forall i | 0 <= i < |b| ensures ComesFrom(b[i], chunks) {
      assert ComesFrom(b[i], before);
      var k :| 0 <= k < |before| && before[k] == Placed(b[i], 0);
      assert chunks[k] == Placed(b[i], 0);
    }
    forall o: nat ensures ComesFrom(Placed(c, o), chunks) {
      assert chunks[|before|] == Placed(Placed(c, o), 0);
    }
  }

  lemma SameNameIsFull(b: Bucket, before: seq<Chunk>, c: Chunk, chunks: seq<Chunk>, bucketSize: nat)
    requires StemsFrom(b, before) && chunks == before + [c] && WellSplit(chunks, bucketSize)
    ensures forall i :: 0 <= i < |b| && b[i].meta.name == c.meta.name ==> b[i].meta.chunkSize == bucketSize
  {
    forall i | 0 <= i < |b| && b[i].meta.name == c.meta.name ensures b[i].meta.chunkSize == bucketSize {
      assert ComesFrom(b[i], before);
      var k :| 0 <= k < |before| && before[k] == Placed(b[i], 0);
      assert chunks[k] == before[k] && chunks[|before|] == c;
    }
  }

  /** Every bucket fits, names its chunks apart, and only the last may be empty. */
  lemma BucketsLayout(chunks: seq<Chunk>, bucketSize: nat, k: nat)
    requires WellSplit(chunks, bucketSize) && k < |Buckets(chunks, bucketSize)|
    ensures Fits(Buckets(chunks, bucketSize)[k], bucketSize) && DistinctNames(Buckets(chunks, bucketSize)[k])
    ensures k < |Buckets(chunks, bucketSize)| - 1 ==> Buckets(chunks, bucketSize)[k] != []
  {
    PackLayout(chunks, bucketSize);
  }

  /** A bucket was closed only because the next chunk, the first of the next bucket, did not fit any more. */
  ghost predicate ClosedWhenFull(buckets: seq<Bucket>, bucketSize: nat) {
    forall k, n :: 0 <= k && n == k + 1 < |buckets| ==> NoRoom(buckets[k], buckets[n], bucketSize)
  }

  ghost predicate NoRoom(b: Bucket, next: Bucket, bucketSize: nat) {
    next != [] && Size(b) + next[0].meta.chunkSize > bucketSize
  }

  lemma {:induction false} PackClosesWhenFull(chunks: seq<Chunk>, bucketSize: nat)
    ensures var s := Pack(chunks, bucketSize);
      s.offset == Size(s.current) && ClosedWhenFull(s.done + [s.current], bucketSize)
  {
    hide Size;
    if chunks == [] {
      EmptyFits(bucketSize);
    } else {
      PackClosesWhenFull(chunks[..|chunks| - 1], bucketSize);
      PlaceClosesWhenFull(Pack(chunks[..|chunks| - 1], bucketSize), chunks[|chunks| - 1], bucketSize);
    }
  }

  lemma PlaceClosesWhenFull(s: PackState, c: Chunk, bucketSize: nat)
    requires s.offset == Size(s.current) && ClosedWhenFull(s.done + [s.current], bucketSize)
    ensures var t := Place(s, c, bucketSize);
      t.offset == Size(t.current) && ClosedWhenFull(t.done + [t.current], bucketSize)
  {
    hide Size;
    var t := Place(s, c, bucketSize);
    var was: seq<Bucket>, now: seq<Bucket> := s.done + [s.current], t.done + [t.current];
    EmptyFits(bucketSize);
    SizeAppend(if Overflows(s, c, bucketSize) then [] else s.current, t.current[|t.current| - 1]);
    forall k, n | 0 <= k && n == k + 1 < |now| ensures NoRoom(now[k], now[n], bucketSize) {
      assert now[k] == was[k];
      if n < |was| { assert NoRoom(was[k], was[n], bucketSize); }
    }
    assert ClosedWhenFull(now, bucketSize);
  }

  /** Next-fit packing: no bucket is closed while the next chunk still fits. */
  lemma BucketsAreFull(chunks: seq<Chunk>, bucketSize: nat)
    ensures ClosedWhenFull(Buckets(chunks, bucketSize), bucketSize)
  {
    PackClosesWhenFull(chunks, bucketSize);
  }

  /** Different chunks of a bucket occupy disjoint byte ranges. */
  lemma {:induction false} RangesDisjoint(b: Bucket, bucketSize: nat, i: nat, j: nat)
    requires Fits(b, bucketSize) && i < j < |b|
    ensures b[i].meta.offset + b[i].meta.chunkSize <= b[j].meta.offset
    ensures b[j].meta.offset + b[j].meta.chunkSize <= bucketSize
  {
    SizeAt(b[..j], i);
    assert b[..j][..i] == b[..i];
    SizeAt(b, j);
  }

  // ---------------------------------------------------------------- nothing lost, nothing reordered

  function Strip(chunks: seq<Chunk>): (r: seq<Chunk>)
    ensures |r| == |chunks|
  {
    seq(|chunks|, i requires 0 <= i < |chunks| => Placed(chunks[i], 0))
  }

  /** Placing a chunk adds it behind all chunks placed before. */
  lemma PlaceAppends(s: PackState, c: Chunk, bucketSize: nat) returns (offset: nat)
    ensures var t := Place(s, c, bucketSize);
      Flatten(t.done) + t.current == Flatten(s.done) + s.current + [Placed(c, offset)]
  {
    hide Flatten;
    FlattenAppend(s.done, s.current);
    offset := if Overflows(s, c, bucketSize) then 0 else s.offset;
  }

  lemma StripAppend(chunks: seq<Chunk>, c: Chunk, offset: nat)
    requires c.meta.offset == 0
    ensures Strip(chunks + [Placed(c, offset)]) == Strip(chunks) + [c]
  {}

  /** The buckets hold the chunks in order. */
  lemma {:induction false} PackKeepsOrder(chunks: seq<Chunk>, bucketSize: nat)
    requires forall i :: 0 <= i < |chunks| ==> chunks[i].meta.offset == 0
    ensures var s := Pack(chunks, bucketSize);
      Strip(Flatten(s.done) + s.current) == chunks
  {
    hide Flatten, Place, Strip;
    if chunks == [] {
      assert Strip(Flatten([]) + []) == [] by { NothingPacked(); }
    } else {
      var before, c := chunks[..|chunks| - 1], chunks[|chunks| - 1];
      PackKeepsOrder(before, bucketSize);
      var s := Pack(before, bucketSize);
      var offset := PlaceAppends(s, c, bucketSize);
      StripAppend(Flatten(s.done) + s.current, c, offset);
    }
  }

  lemma NothingPacked()
    ensures Strip(Flatten([]) + []) == []
  {}

  lemma BucketsKeepOrder(chunks: seq<Chunk>, bucketSize: nat)
    requires forall i :: 0 <= i < |chunks| ==> chunks[i].meta.offset == 0
    ensures Strip(Flatten(Buckets(chunks, bucketSize))) == chunks
  {
    PackKeepsOrder(chunks, bucketSize);
    FlattenAppend(Pack(chunks, bucketSize).done, Pack(chunks, bucketSize).current);
  }

  lemma MergeChunkIgnoresOffset(state: MergeState, c: Chunk, bucketSize: nat, garbage: Garbage)
    ensures MergeChunk(state, Placed(c, 0), bucketSize, garbage) == MergeChunk(state, c, bucketSize, garbage)
  {}

  /** Merging does not look at bucket offsets. */
  lemma {:induction false} MergeIgnoresOffsets(state: MergeState, chunks: seq<Chunk>, bucketSize: nat, garbage: Garbage)
    ensures Merge(state, Strip(chunks), bucketSize, garbage) == Merge(state, chunks, bucketSize, garbage)
    decreases |chunks|
  {
    hide MergeChunk;
    if chunks != [] {
      MergeChunkIgnoresOffset(state, chunks[0], bucketSize, garbage);
      assert Strip(chunks)[1..] == Strip(chunks[1..]);
      match MergeChunk(state, chunks[0], bucketSize, garbage)
      case Failed =>
      case Step(next, out) => MergeIgnoresOffsets(next, chunks[1..], bucketSize, garbage);
    }
  }

  /** Whoever yields the chunks of all buckets in order rebuilds exactly the non-empty weights. */
  lemma BucketsRebuildWeights(weights: seq<Weight>, bucketSize: nat, garbage: Garbage)
    requires bucketSize > 0
    ensures Merge(Idle, Flatten(Buckets(Split(weights, bucketSize), bucketSize)), bucketSize, garbage)
         == MergedWeights(NonEmpty(weights))
  {
    var chunks := Split(weights, bucketSize);
    SplitOffsets(weights, bucketSize);
    BucketsKeepOrder(chunks, bucketSize);
    MergeIgnoresOffsets(Idle, Flatten(Buckets(chunks, bucketSize)), bucketSize, garbage);
    MergeSplit(weights, bucketSize, garbage);
  }

  lemma {:induction false} SplitOffsets(weights: seq<Weight>, bucketSize: nat)
    requires bucketSize > 0
    ensures forall i :: 0 <= i < |Split(weights, bucketSize)| ==> Split(weights, bucketSize)[i].meta.offset == 0
  {
    if weights != [] {
      ChunksFromWellSplit(weights[0], bucketSize, 0);
      SplitOffsets(weights[1..], bucketSize);
    }
  }

  // ---------------------------------------------------------------- buckets in memory

  /** The byte range of a chunk in a buffer. */
  function View(buffer: seq<byte>, meta: TensorMeta): seq<byte>
    requires meta.offset + meta.chunkSize <= |buffer|
  {
    buffer[meta.offset..meta.offset + meta.chunkSize]
  }

  /** The buffer contains every chunk of the bucket at its place; other bytes are stale. */
  ghost predicate Holds(buffer: seq<byte>, b: Bucket) {
    forall i :: 0 <= i < |b| ==>
      && b[i].meta.offset + b[i].meta.chunkSize <= |buffer|
      && View(buffer, b[i].meta) == b[i].data
  }

  /** Slice assignment of a chunk at the fill level. */
  function Write(buffer: seq<byte>, offset: nat, data: seq<byte>): (r: seq<byte>)
    requires offset + |data| <= |buffer|
    ensures |r| == |buffer|
  {
    buffer[..offset] + data + buffer[offset + |data|..]
  }

  lemma ViewOfWrite(buffer: seq<byte>, offset: nat, data: seq<byte>, meta: TensorMeta)
    requires offset + |data| <= |buffer|
    ensures meta.offset + meta.chunkSize <= offset ==> View(Write(buffer, offset, data), meta) == View(buffer, meta)
    ensures meta.offset == offset && meta.chunkSize == |data| ==> View(Write(buffer, offset, data), meta) == data
  {}

  /** Filling in the next chunk keeps the earlier ones readable. */
  lemma WriteHolds(buffer: seq<byte>, b: Bucket, c: Chunk, bucketSize: nat)
    requires Fits(b, bucketSize) && Holds(buffer, b) && |buffer| == bucketSize
    requires |c.data| == c.meta.chunkSize && Size(b) + c.meta.chunkSize <= bucketSize
    ensures Holds(Write(buffer, Size(b), c.data), b + [Placed(c, Size(b))])
  {
    hide View, Write, Size;
    var placed := Placed(c, Size(b));
    ViewOfWrite(buffer, Size(b), c.data, placed.meta);
    forall i | 0 <= i < |b| ensures View(Write(buffer, Size(b), c.data), b[i].meta) == b[i].data {
      SizeAt(b, i);
      ViewOfWrite(buffer, Size(b), c.data, b[i].meta);
    }
  }
}
