/** De-interleaving the rows of a grouped query-key-value tensor. */
module QkvSplit {
  import opened NatArithmetic
  import opened Sequences

  /** The rows from `lo` to `hi` of group `g`. */
  function Segment<T>(rows: seq<T>, width: nat, lo: nat, hi: nat, g: nat): seq<T>
    requires Times(g, width) + width <= |rows| && lo <= hi <= width
  {
    rows[Times(g, width) + lo..Times(g, width) + hi]
  }

  /** The rows from `lo` to `hi` of every group of `width` rows, group by group. */
  function Segments<T>(rows: seq<T>, groups: nat, width: nat, lo: nat, hi: nat): seq<T>
    requires Times(groups, width) <= |rows| && lo <= hi <= width
  {
    if groups == 0 then []
    else
      TimesStep(groups, width);
      Segments(rows, groups - 1, width, lo, hi) + Segment(rows, width, lo, hi, groups - 1)
  }

  // ---------------------------------------------------------------- the two tensor operations used

  /** Pieces of the rounded-up size, the last one possibly shorter; an empty tensor gives empty pieces. */
  function Chunks<T>(rows: seq<T>, n: nat): seq<seq<T>>
    requires n > 0
  {
    if rows == [] then seq(n, i => []) else Pieces(rows, CeilDiv(|rows|, n))
  }

  function Pieces<T>(rows: seq<T>, size: nat): seq<seq<T>> {
    if rows == [] || size == 0 then []
    else if |rows| <= size then [rows]
    else [rows[..size]] + Pieces(rows[size..], size)
  }

  /** Splitting into three parts raises unless their sizes add up. */
  predicate Splits<T>(rows: seq<T>, a: nat, b: nat) {
    a + b + b == |rows|
  }

  // ---------------------------------------------------------------- _split_tensors

  datatype Qkv<T> = BadHeads | BadRows | BadSplit | Qkv(q: seq<T>, k: seq<T>, v: seq<T>)

  /** The rows of each group: `ratio` parts of queries, one of keys, one of values. */
  ghost predicate IsDeinterleaved<T>(tensor: seq<T>, ratio: nat, groups: nat, r: Qkv<T>)
    requires r.Qkv? && groups > 0
  {
    var part := |tensor| / (ratio + 2) / groups;
    var qPart, width := Times(part, ratio), Times(part, ratio) + part + part;
    && Times(groups, width) == |tensor|
    && r.q == Segments(tensor, groups, width, 0, qPart)
    && r.k == Segments(tensor, groups, width, qPart, qPart + part)
    && r.v == Segments(tensor, groups, width, qPart + part, width)
  }

  /** Row for row: the first `ratio` parts of group `g` are its queries, the next part its keys, the last its values. */
  ghost predicate GroupIsInPlace<T>(tensor: seq<T>, q: nat, part: nat, g: nat, r: Qkv<T>)
    requires r.Qkv?
  {
    var at := g * (q + 2 * part);
    && at + q + 2 * part <= |tensor| && g * q + q <= |r.q| && g * part + part <= |r.k| && g * part + part <= |r.v|
    && r.q[g * q..g * q + q] == tensor[at..at + q]
    && r.k[g * part..g * part + part] == tensor[at + q..at + q + part]
    && r.v[g * part..g * part + part] == tensor[at + q + part..at + q + 2 * part]
  }

  ghost predicate GroupsAreInPlace<T>(tensor: seq<T>, ratio: nat, groups: nat, r: Qkv<T>)
    requires r.Qkv? && groups > 0
  {
    var part := |tensor| / (ratio + 2) / groups;
    && |r.q| + |r.k| + |r.v| == |tensor| && |r.k| == |r.v| == groups * part
    && forall g: nat :: g < groups ==> GroupIsInPlace(tensor, part * ratio, part, g, r)
  }

  /** It works exactly when the key-value heads divide the key rows. */
  method SplitQkv<T>(tensor: seq<T>, heads: nat, kvHeads: nat) returns (r: Qkv<T>)
    requires kvHeads > 0
    ensures r == BadHeads <==> heads % kvHeads != 0
    ensures heads % kvHeads == 0 ==> (r == BadRows <==> |tensor| % (heads / kvHeads + 2) != 0)
    ensures heads % kvHeads == 0 && |tensor| % (heads / kvHeads + 2) == 0 ==>
      if (|tensor| / (heads / kvHeads + 2)) % kvHeads == 0
      then r.Qkv? && IsDeinterleaved(tensor, heads / kvHeads, kvHeads, r)
           && GroupsAreInPlace(tensor, heads / kvHeads, kvHeads, r)
      else r == BadSplit
  {
    hide IsDeinterleaved, GroupsAreInPlace;
    if heads % kvHeads != 0 { return BadHeads; }
    if |tensor| % (heads / kvHeads + 2) != 0 { return BadRows; }
    r := SplitGroups(tensor, heads / kvHeads, kvHeads);
    if r.Qkv? { SplitInPlace(tensor, heads / kvHeads, kvHeads, r); }
  }

  method SplitGroups<T>(tensor: seq<T>, ratio: nat, kvHeads: nat) returns (r: Qkv<T>)
    requires kvHeads > 0 && |tensor| % (ratio + 2) == 0
    ensures if (|tensor| / (ratio + 2)) % kvHeads == 0
            then r.Qkv? && IsDeinterleaved(tensor, ratio, kvHeads, r)
            else r == BadSplit
  {
    hide Times, CeilDiv, Chunks, IsDeinterleaved, ChunksAreGroups, Segments, Splits;
    var kvSize := |tensor| / (ratio + 2);
    var qPart, part := Times(kvSize, ratio) / kvHeads, kvSize / kvHeads;
    var chunks := Chunks(tensor, kvHeads);
    if kvSize % kvHeads == 0 { EvenChunks(tensor, ratio, kvHeads); } else { FirstChunkTooLong(tensor, ratio, kvHeads); }
    r := SplitChunks(tensor, chunks, qPart, part);
    if kvSize % kvHeads == 0 { GroupsAreDeinterleaved(tensor, ratio, kvHeads, qPart, part, r); }
  }

  lemma GroupsAreDeinterleaved<T>(tensor: seq<T>, ratio: nat, groups: nat, qPart: nat, part: nat, r: Qkv<T>)
    requires groups > 0 && part == |tensor| / (ratio + 2) / groups && qPart == Times(part, ratio)
    requires Times(groups, qPart + part + part) == |tensor|
    requires r.Qkv? && r.q == Segments(tensor, groups, qPart + part + part, 0, qPart)
    requires r.k == Segments(tensor, groups, qPart + part + part, qPart, qPart + part)
    requires r.v == Segments(tensor, groups, qPart + part + part, qPart + part, qPart + part + part)
    ensures IsDeinterleaved(tensor, ratio, groups, r)
  {
    hide Times, Segments;
  }

  /** Every chunk is one group of the tensor. */
  ghost predicate ChunksAreGroups<T>(tensor: seq<T>, chunks: seq<seq<T>>, width: nat) {
    && Times(|chunks|, width) == |tensor|
    && forall g: nat :: g < |chunks| ==>
         Times(g, width) + width <= |tensor| && chunks[g] == tensor[Times(g, width)..Times(g, width) + width]
  }

  method SplitChunks<T>(ghost tensor: seq<T>, chunks: seq<seq<T>>, qPart: nat, part: nat) returns (r: Qkv<T>)
    ensures chunks != [] && !Splits(chunks[0], qPart, part) ==> r == BadSplit
    ensures ChunksAreGroups(tensor, chunks, qPart + part + part) ==>
      && Times(|chunks|, qPart + part + part) == |tensor| && r.Qkv?
      && r.q == Segments(tensor, |chunks|, qPart + part + part, 0, qPart)
      && r.k == Segments(tensor, |chunks|, qPart + part + part, qPart, qPart + part)
      && r.v == Segments(tensor, |chunks|, qPart + part + part, qPart + part, qPart + part + part)
  {
    hide Times, Segments;
    var qs: seq<seq<T>>, ks: seq<seq<T>>, vs: seq<seq<T>> := [], [], [];
    NoSegments(tensor, qPart, part);
    for g := 0 to |chunks|
      invariant g > 0 ==> Splits(chunks[0], qPart, part)
      invariant ChunksAreGroups(tensor, chunks, qPart + part + part) ==> GroupsDone(tensor, g, qPart, part, qs, ks, vs)
    {
      var chunk := chunks[g];
      if !Splits(chunk, qPart, part) { return BadSplit; }
      var q, k, v := chunk[..qPart], chunk[qPart..qPart + part], chunk[qPart + part..];
      if ChunksAreGroups(tensor, chunks, qPart + part + part) {
        OneMoreGroup(tensor, g, |chunks|, qPart, part, qs, ks, vs, chunk);
      }
      qs, ks, vs := qs + [q], ks + [k], vs + [v];
    }
    r := Qkv(Flatten(qs), Flatten(ks), Flatten(vs));
  }

  /** After `g` groups the three lists hold their segments. */
  ghost predicate GroupsDone<T>(tensor: seq<T>, g: nat, qPart: nat, part: nat, qs: seq<seq<T>>, ks: seq<seq<T>>, vs: seq<seq<T>>) {
    var width := qPart + part + part;
    && Times(g, width) <= |tensor|
    && Flatten(qs) == Segments(tensor, g, width, 0, qPart)
    && Flatten(ks) == Segments(tensor, g, width, qPart, qPart + part)
    && Flatten(vs) == Segments(tensor, g, width, qPart + part, width)
  }

  lemma NoSegments<T>(tensor: seq<T>, qPart: nat, part: nat)
    ensures GroupsDone(tensor, 0, qPart, part, [], [], [])
  {}

  lemma OneMoreGroup<T>(tensor: seq<T>, g: nat, groups: nat, qPart: nat, part: nat,
                        qs: seq<seq<T>>, ks: seq<seq<T>>, vs: seq<seq<T>>, chunk: seq<T>)
    requires GroupsDone(tensor, g, qPart, part, qs, ks, vs) && g < groups && |chunk| == qPart + part + part
    requires var width := qPart + part + part;
      Times(groups, width) == |tensor| && Times(g, width) + width <= |tensor|
      && chunk == tensor[Times(g, width)..Times(g, width) + width]
    ensures GroupsDone(tensor, g + 1, qPart, part,
                       qs + [chunk[..qPart]], ks + [chunk[qPart..qPart + part]], vs + [chunk[qPart + part..]])
  {
    hide Times, Flatten, Segment;
    var width := qPart + part + part;
    GroupFits(g, groups, width);
    PartsOfChunk(tensor, g, qPart, part, chunk);
    FlattenAppend(qs, chunk[..qPart]);
    FlattenAppend(ks, chunk[qPart..qPart + part]);
    FlattenAppend(vs, chunk[qPart + part..]);
  }

  lemma PartsOfChunk<T>(tensor: seq<T>, g: nat, qPart: nat, part: nat, chunk: seq<T>)
    requires var width := qPart + part + part;
      Times(g, width) + width <= |tensor| && chunk == tensor[Times(g, width)..Times(g, width) + width]
    ensures var width := qPart + part + part;
      && chunk[..qPart] == Segment(tensor, width, 0, qPart, g)
      && chunk[qPart..qPart + part] == Segment(tensor, width, qPart, qPart + part, g)
      && chunk[qPart + part..] == Segment(tensor, width, qPart + part, width, g)
  {
    hide Times;
    var width, at := qPart + part + part, Times(g, qPart + part + part);
    SubSlice(tensor, at, at + width, 0, qPart);
    SubSlice(tensor, at, at + width, qPart, qPart + part);
    SubSlice(tensor, at, at + width, qPart + part, width);
  }

  // ---------------------------------------------------------------- when the sizes add up

  lemma {:induction false} PiecesEven<T>(rows: seq<T>, n: nat, size: nat, g: nat)
    requires |rows| == Times(n, size) && size > 0
    ensures |Pieces(rows, size)| == n
    ensures g < n ==>
      Times(g, size) + size <= |rows| && Pieces(rows, size)[g] == rows[Times(g, size)..Times(g, size) + size]
    decreases n
  {
    hide Times;
    TimesStep(n, size);
    if n > 0 {
      TimesStep(n - 1, size);
      TimesStep(0, size);
      PiecesEven(rows[size..], n - 1, size, if g > 0 then g - 1 else 0);
      if g < n { GroupFits(g, n, size); }
      if g > 0 { TimesStep(g, size); }
    }
  }

  /** When the key-value heads divide the key rows, every chunk is one group and its three parts add up. */
  lemma EvenChunks<T>(tensor: seq<T>, ratio: nat, groups: nat)
    requires groups > 0 && |tensor| % (ratio + 2) == 0 && |tensor| / (ratio + 2) % groups == 0
    ensures var kvSize := |tensor| / (ratio + 2);
      var part, qPart := kvSize / groups, Times(kvSize, ratio) / groups;
      var width := qPart + part + part;
      && Times(groups, width) == |tensor| && qPart == Times(part, ratio)
      && |Chunks(tensor, groups)| == groups && ChunksAreGroups(tensor, Chunks(tensor, groups), width)
  {
    hide Times;
    var n, kvSize := |tensor|, |tensor| / (ratio + 2);
    var part := kvSize / groups;
    var qPart := Times(kvSize, ratio) / groups;
    var width := qPart + part + part;
    EvenArithmetic(n, ratio, groups);
    forall g: nat | g < groups
      ensures Times(g, width) + width <= |tensor|
      ensures |Chunks(tensor, groups)| == groups
      ensures Chunks(tensor, groups)[g] == tensor[Times(g, width)..Times(g, width) + width]
    {
      GroupFits(g, groups, width);
      if tensor != [] {
        CeilDivBounds(n, groups);
        QuotientUnique(n, groups, width) by { TimesLaws(groups, width, 0); }
        PiecesEven(tensor, groups, width, g) by { TimesLaws(groups, 0, 0); }
      }
    }
    assert |Chunks(tensor, groups)| == groups by { assert 0 < groups; GroupFits(0, groups, width); }
  }

  lemma EvenArithmetic(n: nat, ratio: nat, groups: nat)
    requires groups > 0 && n % (ratio + 2) == 0 && n / (ratio + 2) % groups == 0
    ensures var kvSize := n / (ratio + 2);
      var part, qPart := kvSize / groups, Times(kvSize, ratio) / groups;
      qPart == Times(part, ratio) && Times(groups, qPart + part + part) == n && n % groups == 0
  {
    hide Times;
    var kvSize := n / (ratio + 2);
    var part := kvSize / groups;
    var qPart := Times(part, ratio);
    Quotient(n, ratio + 2);
    Quotient(kvSize, groups);
    // kvSize * ratio == (part * groups) * ratio == (part * ratio) * groups
    TimesAssociative(part, groups, ratio);
    TimesLaws(groups, ratio, 0);
    TimesAssociative(part, ratio, groups);
    QuotientUnique(Times(kvSize, ratio), groups, qPart);
    // n == kvSize * (ratio + 2) == groups * (qPart + part + part)
    TimesLaws(kvSize, ratio, 2);
    TimesLaws(kvSize, 1, 1);
    TimesLaws(groups, qPart + part, part);
    TimesLaws(groups, qPart, part);
    TimesLaws(part, groups, 0);
    TimesLaws(qPart, groups, 0);
    Quotient(n, groups);
    TimesLaws(qPart + part + part, groups, 0);
    QuotientUnique(n, groups, qPart + part + part);
  }

  /** Otherwise the first chunk is longer than its three parts together. */
  lemma FirstChunkTooLong<T>(tensor: seq<T>, ratio: nat, groups: nat)
    requires groups > 0 && |tensor| % (ratio + 2) == 0 && |tensor| / (ratio + 2) % groups != 0
    ensures var kvSize := |tensor| / (ratio + 2);
      && Chunks(tensor, groups) != []
      && !Splits(Chunks(tensor, groups)[0], Times(kvSize, ratio) / groups, kvSize / groups)
  {
    hide Times;
    UnevenArithmetic(|tensor|, ratio, groups);
    CeilDivBounds(|tensor|, groups);
  }

  lemma UnevenArithmetic(n: nat, ratio: nat, groups: nat)
    requires groups > 0 && n % (ratio + 2) == 0 && n / (ratio + 2) % groups != 0
    ensures var kvSize := n / (ratio + 2);
      Times(kvSize, ratio) / groups + kvSize / groups + kvSize / groups < CeilDiv(n, groups) && n > 0
  {
    hide Times, CeilDiv;
    var kvSize := n / (ratio + 2);
    Quotient(n, ratio + 2);
    TimesLaws(kvSize, ratio, 2);
    TimesLaws(kvSize, 1, 1);
    Quotient(kvSize, groups);
    Quotient(Times(kvSize, ratio), groups);
    CeilDivBounds(n, groups);
    PartsTooSmall(n, kvSize, Times(kvSize, ratio), Times(kvSize, ratio) / groups, kvSize / groups, CeilDiv(n, groups), groups);
  }

  /** Rounding the key rows down makes the three parts too small together. */
  lemma PartsTooSmall(n: nat, kvSize: nat, qSize: nat, q: nat, k: nat, c: nat, groups: nat)
    requires n == qSize + 2 * kvSize && Times(q, groups) <= qSize && Times(k, groups) < kvSize && n <= Times(c, groups)
    ensures q + k + k < c
  {
    hide Times;
    TimesLaws(groups, q + k, k);
    TimesLaws(groups, q, k);
    TimesLaws(q + k + k, groups, 0);
    TimesLaws(q, groups, 0);
    TimesLaws(k, groups, 0);
    TimesCancel(q + k + k, c, groups);
  }

  // ---------------------------------------------------------------- nothing is lost

  lemma {:induction false} SegmentsLength<T>(rows: seq<T>, groups: nat, width: nat, lo: nat, hi: nat)
    requires Times(groups, width) <= |rows| && lo <= hi <= width
    ensures |Segments(rows, groups, width, lo, hi)| == Times(groups, hi - lo)
  {
    hide Times;
    TimesStep(groups, hi - lo);
    if groups > 0 {
      TimesStep(groups, width);
      SegmentsLength(rows, groups - 1, width, lo, hi);
    }
  }

  /** The piece of group `g`. */
  lemma {:induction false} SegmentAt<T>(rows: seq<T>, groups: nat, width: nat, lo: nat, hi: nat, g: nat)
    requires Times(groups, width) <= |rows| && lo <= hi <= width && g < groups
    ensures var s, n := Segments(rows, groups, width, lo, hi), hi - lo;
      && Times(g, n) + n <= |s| && Times(g, width) + width <= |rows|
      && s[Times(g, n)..Times(g, n) + n] == Segment(rows, width, lo, hi, g)
  {
    hide Times;
    GroupFits(g, groups, width);
    GroupFits(g, groups, hi - lo);
    SegmentsLength(rows, groups, width, lo, hi);
    TimesStep(groups, width);
    SegmentsLength(rows, groups - 1, width, lo, hi);
    if g < groups - 1 {
      SegmentAt(rows, groups - 1, width, lo, hi, g);
      GroupFits(g, groups - 1, hi - lo);
    }
  }

  /** Putting the parts of each group side by side again. */
  function Interleave<T>(q: seq<T>, k: seq<T>, v: seq<T>, groups: nat, qPart: nat, part: nat): seq<T>
    requires Times(groups, qPart) <= |q| && Times(groups, part) <= |k| && Times(groups, part) <= |v|
  {
    if groups == 0 then []
    else
      var g := groups - 1;
      TimesStep(groups, qPart);
      TimesStep(groups, part);
      Interleave(q, k, v, g, qPart, part)
      + q[Times(g, qPart)..Times(g, qPart) + qPart] + k[Times(g, part)..Times(g, part) + part]
      + v[Times(g, part)..Times(g, part) + part]
  }

  lemma {:induction false} InterleaveRestores<T>(tensor: seq<T>, groups: nat, n: nat, qPart: nat, part: nat)
    requires Times(groups, qPart + part + part) <= |tensor| && n <= groups
    ensures var width := qPart + part + part;
      var q, k, v := Segments(tensor, groups, width, 0, qPart), Segments(tensor, groups, width, qPart, qPart + part),
                     Segments(tensor, groups, width, qPart + part, width);
      && Times(n, qPart) <= |q| && Times(n, part) <= |k| && Times(n, part) <= |v| && Times(n, width) <= |tensor|
      && Interleave(q, k, v, n, qPart, part) == tensor[..Times(n, width)]
  {
    hide Times, Segments, Segment;
    var width := qPart + part + part;
    TimesStep(0, width);
    TimesStep(0, part);
    TimesStep(0, qPart);
    if n > 0 {
      var g := n - 1;
      InterleaveRestores(tensor, groups, g, qPart, part);
      SegmentAt(tensor, groups, width, 0, qPart, g);
      SegmentAt(tensor, groups, width, qPart, qPart + part, g);
      SegmentAt(tensor, groups, width, qPart + part, width, g);
      TimesStep(g, width);
      TimesStep(g, part);
      TimesStep(g, qPart);
      Rejoin(tensor, g, qPart, part);
    }
  }

  /** The three parts of a group follow one another. */
  lemma Rejoin<T>(s: seq<T>, g: nat, qPart: nat, part: nat)
    requires Times(g, qPart + part + part) + qPart + part + part <= |s|
    ensures var width := qPart + part + part;
      s[..Times(g, width) + width]
        == s[..Times(g, width)] + Segment(s, width, 0, qPart, g) + Segment(s, width, qPart, qPart + part, g)
           + Segment(s, width, qPart + part, width, g)
  {
    hide Times;
  }

  /** Re-interleaving the result of a successful split restores the tensor. */
  lemma SplitIsReversible<T>(tensor: seq<T>, ratio: nat, groups: nat, r: Qkv<T>)
    requires groups > 0 && r.Qkv? && IsDeinterleaved(tensor, ratio, groups, r)
    ensures var part := |tensor| / (ratio + 2) / groups;
      && Times(groups, Times(part, ratio)) <= |r.q| && Times(groups, part) <= |r.k| && Times(groups, part) <= |r.v|
      && Interleave(r.q, r.k, r.v, groups, Times(part, ratio), part) == tensor
  {
    hide Times, Segments, Interleave;
    var part := |tensor| / (ratio + 2) / groups;
    InterleaveRestores(tensor, groups, groups, Times(part, ratio), part);
    assert tensor[..|tensor|] == tensor;
  }

  /** De-interleaved rows lie where the layout of the fused tensor puts them. */
  lemma SplitInPlace<T>(tensor: seq<T>, ratio: nat, groups: nat, r: Qkv<T>)
    requires groups > 0 && r.Qkv? && IsDeinterleaved(tensor, ratio, groups, r)
    ensures GroupsAreInPlace(tensor, ratio, groups, r)
  {
    hide Segments, Segment, GroupIsInPlace, Times;
    var part := |tensor| / (ratio + 2) / groups;
    var qPart, width := Times(part, ratio), Times(part, ratio) + part + part;
    assert qPart == part * ratio by { TimesIsProduct(part, ratio); }
    SegmentsLength(tensor, groups, width, 0, qPart);
    SegmentsLength(tensor, groups, width, qPart, qPart + part);
    SegmentsLength(tensor, groups, width, qPart + part, width);
    TimesLaws(groups, qPart + part, part);
    TimesLaws(groups, qPart, part);
    TimesIsProduct(groups, part);
    forall g: nat | g < groups ensures GroupIsInPlace(tensor, qPart, part, g, r) {
      GroupInPlace(tensor, groups, qPart, part, g, r);
    }
  }

  lemma GroupInPlace<T>(tensor: seq<T>, groups: nat, qPart: nat, part: nat, g: nat, r: Qkv<T>)
    requires r.Qkv? && g < groups && Times(groups, qPart + part + part) == |tensor|
    requires r.q == Segments(tensor, groups, qPart + part + part, 0, qPart)
    requires r.k == Segments(tensor, groups, qPart + part + part, qPart, qPart + part)
    requires r.v == Segments(tensor, groups, qPart + part + part, qPart + part, qPart + part + part)
    ensures GroupIsInPlace(tensor, qPart, part, g, r)
  {
    hide Times, Segments;
    var width := qPart + part + part;
    SegmentAt(tensor, groups, width, 0, qPart, g);
    SegmentAt(tensor, groups, width, qPart, qPart + part, g);
    SegmentAt(tensor, groups, width, qPart + part, width, g);
    TimesIsProduct(g, qPart);
    TimesIsProduct(g, part);
    TimesIsProduct(g, width);
    assert width == qPart + 2 * part;
  }
}
