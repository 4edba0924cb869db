/** Splitting weights into chunks of at most one bucket, and merging received chunks back into weights. */
module WeightChunks {

  newtype byte = x: int | 0 <= x < 256

  /** A named weight as its raw bytes. */
  datatype Weight = Weight(name: string, bytes: seq<byte>)

  /** Chunk metadata; `nbytes` is the size the shape and element type give, `offset` the place in a bucket. */
  datatype TensorMeta = TensorMeta(name: string, nbytes: nat, chunkOffset: nat, chunkSize: nat, offset: nat)

  datatype Chunk = Chunk(meta: TensorMeta, data: seq<byte>)

  // ---------------------------------------------------------------- split

  function Min(a: nat, b: nat): nat { if a < b then a else b }

  /** The chunks of `w` from byte `start` on. */
  function ChunksFrom(w: Weight, bucketSize: nat, start: nat): seq<Chunk>
    requires bucketSize > 0 && start <= |w.bytes|
    decreases |w.bytes| - start
  {
    if start == |w.bytes| then []
    else
      var size := Min(bucketSize, |w.bytes| - start);
      [Chunk(TensorMeta(w.name, |w.bytes|, start, size, 0), w.bytes[start..start + size])]
      + ChunksFrom(w, bucketSize, start + size)
  }

  function Split(weights: seq<Weight>, bucketSize: nat): seq<Chunk>
    requires bucketSize > 0
  {
    if weights == [] then []
    else ChunksFrom(weights[0], bucketSize, 0) + Split(weights[1..], bucketSize)
  }

  lemma {:induction false} SplitAppend(a: seq<Weight>, b: seq<Weight>, bucketSize: nat)
    requires bucketSize > 0
    ensures Split(a + b, bucketSize) == Split(a, bucketSize) + Split(b, bucketSize)
  {
    hide ChunksFrom;
    if a == [] {
      assert a + b == b;
    } else {
      var rest := a[1..];
      SplitAppend(rest, b, bucketSize);
      assert a + b == [a[0]] + (rest + b);
      assert Split(a + b, bucketSize) == ChunksFrom(a[0], bucketSize, 0) + Split(rest + b, bucketSize) by {
        assert (a + b)[1..] == rest + b;
      }
    }
  }

  lemma SplitOne(w: Weight, bucketSize: nat)
    requires bucketSize > 0
    ensures Split([w], bucketSize) == ChunksFrom(w, bucketSize, 0)
  {
    assert [w][1..] == [];
    assert ChunksFrom(w, bucketSize, 0) + [] == ChunksFrom(w, bucketSize, 0);
  }

  /** `split_weight_chunks` */
  method SplitWeightChunks(weights: seq<Weight>, bucketSize: nat) returns (chunks: seq<Chunk>)
    requires bucketSize > 0
    ensures chunks == Split(weights, bucketSize)
  {
    chunks := [];
    for i := 0 to |weights|
      invariant chunks == Split(weights[..i], bucketSize)
    {
      var w := weights[i];
      var chunkOffset := 0;
      ghost var before := chunks;
      while chunkOffset < |w.bytes|
        invariant 0 <= chunkOffset <= |w.bytes|
        invariant chunks + ChunksFrom(w, bucketSize, chunkOffset) == before + ChunksFrom(w, bucketSize, 0)
        decreases |w.bytes| - chunkOffset
      {
        var chunkSize := Min(bucketSize, |w.bytes| - chunkOffset);
        var meta := TensorMeta(w.name, |w.bytes|, chunkOffset, chunkSize, 0);
        chunks := chunks + [Chunk(meta, w.bytes[chunkOffset..chunkOffset + chunkSize])];
        chunkOffset := chunkOffset + chunkSize;
      }
      assert weights[..i + 1] == weights[..i] + [w];
      SplitAppend(weights[..i], [w], bucketSize);
      SplitOne(w, bucketSize);
      assert chunks + [] == chunks;
    }
    assert weights[..|weights|] == weights;
  }

  // ---------------------------------------------------------------- merge

  /** The merge in progress; `filled` counts the bytes received. */
  datatype MergeState = Idle | Merging(name: string, buffer: seq<byte>, filled: nat)

  /** One loop iteration: the next state and the weight it yields, if any. Every failed assertion fails. */
  datatype MergeStep = Failed | Step(next: MergeState, out: seq<Weight>)

  /** Contents of a freshly allocated tensor. */
  type Garbage = nat -> byte

  function MergeChunk(state: MergeState, c: Chunk, bucketSize: nat, garbage: Garbage): MergeStep {
    if c.meta.nbytes <= bucketSize then
      if state != Idle || |c.data| != c.meta.nbytes then Failed
      else Step(Idle, [Weight(c.meta.name, c.data)])
    else if state == Idle && c.meta.chunkOffset != 0 then Failed
    else
      var s := if state == Idle then Merging(c.meta.name, seq(c.meta.nbytes, garbage), 0) else state;
      var end := c.meta.chunkOffset + c.meta.chunkSize;
      if c.meta.name != s.name || s.filled != c.meta.chunkOffset || end > |s.buffer| || |c.data| != c.meta.chunkSize
      then Failed
      else
        var buffer := s.buffer[..c.meta.chunkOffset] + c.data + s.buffer[end..];
        if end == c.meta.nbytes then Step(Idle, [Weight(s.name, buffer)])
        else Step(Merging(s.name, buffer, s.filled + c.meta.chunkSize), [])
  }

  datatype Merged = MergeError | MergedWeights(weights: seq<Weight>)

  /** The weights yielded for `chunks`, starting in `state`. */
  function Merge(state: MergeState, chunks: seq<Chunk>, bucketSize: nat, garbage: Garbage): Merged
    decreases |chunks|
  {
    if chunks == [] then MergedWeights([])
    else
      match MergeChunk(state, chunks[0], bucketSize, garbage)
      case Failed => MergeError
      case Step(next, out) =>
        match Merge(next, chunks[1..], bucketSize, garbage)
        case MergeError => MergeError
        case MergedWeights(rest) => MergedWeights(out + rest)
  }

  /** `merge_weight_chunks` */
  method MergeWeightChunks(chunks: seq<Chunk>, bucketSize: nat, garbage: Garbage) returns (r: Merged)
    ensures r == Merge(Idle, chunks, bucketSize, garbage)
  {
    var state := Idle;
    var weights := [];
    for i := 0 to |chunks|
      invariant Merge(Idle, chunks, bucketSize, garbage)
             == match Merge(state, chunks[i..], bucketSize, garbage)
                case MergeError => MergeError
                case MergedWeights(rest) => MergedWeights(weights + rest)
    {
      match MergeChunk(state, chunks[i], bucketSize, garbage)
      case Failed => return MergeError;
      case Step(next, out) =>
        assert chunks[i..][1..] == chunks[i + 1..];
        ghost var rest := Merge(next, chunks[i + 1..], bucketSize, garbage);
        assert rest.MergedWeights? ==> weights + (out + rest.weights) == weights + out + rest.weights;
        state := next;
        weights := weights + out;
    }
    r := MergedWeights(weights);
  }

  // ---------------------------------------------------------------- round trip

  function Prepend(weights: seq<Weight>, m: Merged): Merged {
    match m
    case MergeError => MergeError
    case MergedWeights(rest) => MergedWeights(weights + rest)
  }

  function NonEmpty(weights: seq<Weight>): seq<Weight> {
    if weights == [] then []
    else (if weights[0].bytes == [] then [] else [weights[0]]) + NonEmpty(weights[1..])
  }

  /** One more chunk of a weight wider than a bucket extends the correct part of the buffer. */
  lemma FillChunk(w: Weight, start: nat, buffer: seq<byte>, bucketSize: nat, garbage: Garbage)
    returns (end: nat, filled: seq<byte>)
    requires bucketSize > 0 && |w.bytes| > bucketSize && start < |w.bytes|
    requires |buffer| == |w.bytes| && buffer[..start] == w.bytes[..start]
    ensures start < end <= |w.bytes| && |filled| == |w.bytes| && filled[..end] == w.bytes[..end]
    ensures var chunks := ChunksFrom(w, bucketSize, start);
      && chunks != [] && chunks[1..] == ChunksFrom(w, bucketSize, end)
      && MergeChunk(Merging(w.name, buffer, start), chunks[0], bucketSize, garbage)
         == if end == |w.bytes| then Step(Idle, [w]) else Step(Merging(w.name, filled, end), [])
  {
    var c := ChunksFrom(w, bucketSize, start)[0];
    end := start + c.meta.chunkSize;
    filled := buffer[..start] + c.data + buffer[end..];
    assert filled[..end] == w.bytes[..end];
    if end == |w.bytes| { assert filled == w.bytes; }
  }

  /** The remaining chunks of a weight wider than a bucket complete its buffer. */
  lemma {:induction false} MergeRest(w: Weight, start: nat, buffer: seq<byte>, rest: seq<Chunk>, bucketSize: nat, garbage: Garbage)
    requires bucketSize > 0 && |w.bytes| > bucketSize && start < |w.bytes|
    requires |buffer| == |w.bytes| && buffer[..start] == w.bytes[..start]
    ensures Merge(Merging(w.name, buffer, start), ChunksFrom(w, bucketSize, start) + rest, bucketSize, garbage)
         == Prepend([w], Merge(Idle, rest, bucketSize, garbage))
    decreases |w.bytes| - start
  {
    hide MergeChunk;
    var end, filled := FillChunk(w, start, buffer, bucketSize, garbage);
    var chunks := ChunksFrom(w, bucketSize, start);
    assert (chunks + rest)[1..] == ChunksFrom(w, bucketSize, end) + rest;
    if end == |w.bytes| {
      assert ChunksFrom(w, bucketSize, end) + rest == rest;
    } else {
      MergeRest(w, end, filled, rest, bucketSize, garbage);
    }
  }

  lemma MergeOne(w: Weight, rest: seq<Chunk>, bucketSize: nat, garbage: Garbage)
    requires bucketSize > 0
    ensures Merge(Idle, ChunksFrom(w, bucketSize, 0) + rest, bucketSize, garbage)
         == Prepend(if w.bytes == [] then [] else [w], Merge(Idle, rest, bucketSize, garbage))
  {
    var chunks := ChunksFrom(w, bucketSize, 0);
    if w.bytes == [] {
      assert chunks + rest == rest;
    } else if |w.bytes| <= bucketSize {
      assert chunks[0].data == w.bytes;
      assert (chunks + rest)[1..] == ChunksFrom(w, bucketSize, |w.bytes|) + rest == rest;
    } else {
      var buffer := seq(|w.bytes|, garbage);
      MergeRest(w, 0, buffer, rest, bucketSize, garbage);
      var start := Merging(w.name, buffer, 0);
      var c := (chunks + rest)[0];
      assert MergeChunk(Idle, c, bucketSize, garbage) == MergeChunk(start, c, bucketSize, garbage);
    }
  }

  /** Merging the split chunks never fails and gives back the weights that have any bytes. */
  lemma {:induction false} MergeSplit(weights: seq<Weight>, bucketSize: nat, garbage: Garbage)
    requires bucketSize > 0
    ensures Merge(Idle, Split(weights, bucketSize), bucketSize, garbage) == MergedWeights(NonEmpty(weights))
  {
    if weights != [] {
      MergeOne(weights[0], Split(weights[1..], bucketSize), bucketSize, garbage);
      MergeSplit(weights[1..], bucketSize, garbage);
    }
  }

  /** The round trip is the identity exactly on lists without zero-byte weights. */
  lemma MergeSplitIsIdentity(weights: seq<Weight>, bucketSize: nat, garbage: Garbage)
    requires bucketSize > 0
    ensures Merge(Idle, Split(weights, bucketSize), bucketSize, garbage) == MergedWeights(weights)
       <==> (forall i :: 0 <= i < |weights| ==> weights[i].bytes != [])
  {
    MergeSplit(weights, bucketSize, garbage);
    NonEmptyLength(weights);
  }

  lemma {:induction false} NonEmptyLength(weights: seq<Weight>)
    ensures |NonEmpty(weights)| <= |weights|
    ensures NonEmpty(weights) == weights <==> forall i :: 0 <= i < |weights| ==> weights[i].bytes != []
    ensures |NonEmpty(weights)| == |weights| ==> NonEmpty(weights) == weights
  {
    if weights != [] {
      NonEmptyLength(weights[1..]);
      if weights[0].bytes != [] {
        assert weights == [weights[0]] + weights[1..];
        forall i | 0 <= i < |weights[1..]| ensures weights[1..][i] == weights[i + 1] {}
        if NonEmpty(weights) == weights { assert NonEmpty(weights)[1..] == NonEmpty(weights[1..]); }
      }
    }
  }
}
