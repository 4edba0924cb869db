/**
 * Jagged tensors whose rows are matrices: how the helpers build them from a list of rows, ragged in the first or in
 * the second dimension of a row, and what the padded fallback makes of them when `unbind` raises.
 */
module NestedTensors {
  import opened DataDispatch
  import opened Sequences

  datatype Grid<V> = Grid(height: nat, width: nat, lines: seq<seq<V>>) {
    ghost predicate Valid() {
      |lines| == height && forall r :: 0 <= r < height ==> |lines[r]| == width
    }

    /** The extent in dimension `dim`, counted from zero. */
    function Extent(dim: nat): nat { if dim == 0 then height else width }
  }

  /** `values` holds all rows side by side in dimension `ragged - 1`. */
  datatype Ragged<V> = Ragged(values: Grid<V>, offsets: seq<nat>, ragged: nat)

  /** What the helper asserts of its input and what `cat` demands: a row, and one extent in the other dimension. */
  ghost predicate Fitting<V>(rows: seq<Grid<V>>, ragged: nat) {
    && rows != [] && (ragged == 1 || ragged == 2)
    && forall i :: 0 <= i < |rows| ==> rows[i].Valid() && rows[i].Extent(2 - ragged) == rows[0].Extent(2 - ragged)
  }

  /** The lines with index `r` of all rows. */
  function LinesAt<V>(rows: seq<Grid<V>>, r: nat): (c: seq<seq<V>>)
    requires forall i :: 0 <= i < |rows| ==> r < |rows[i].lines|
    ensures |c| == |rows|
  {
    seq(|rows|, i requires 0 <= i < |rows| => rows[i].lines[r])
  }

  function Blocks<V>(rows: seq<Grid<V>>): (c: seq<seq<seq<V>>>)
    ensures |c| == |rows|
  {
    seq(|rows|, i requires 0 <= i < |rows| => rows[i].lines)
  }

  /** A sequence of the given lengths, for its offsets. */
  function Lengths<V>(rows: seq<Grid<V>>, dim: nat): (c: seq<seq<()>>)
    ensures |c| == |rows|
  {
    seq(|rows|, i requires 0 <= i < |rows| => seq(rows[i].Extent(dim), _ => ()))
  }

  /** `nested_tensor_from_tensor_list` on matrices. */
  function FromList<V>(rows: seq<Grid<V>>, ragged: nat): Ragged<V>
    requires Fitting(rows, ragged)
  {
    var offsets := Offsets(Lengths(rows, ragged - 1));
    var total := offsets[|rows|];
    if ragged == 1 then Ragged(Grid(total, rows[0].width, Flatten(Blocks(rows))), offsets, 1)
    else
      var height := rows[0].height;
      Ragged(Grid(height, total, seq(height, r requires 0 <= r < height =>
        SameHeight(rows, ragged); Flatten(LinesAt(rows, r)))), offsets, 2)
  }

  lemma SameHeight<V>(rows: seq<Grid<V>>, ragged: nat)
    requires Fitting(rows, ragged) && ragged == 2
    ensures forall i :: 0 <= i < |rows| ==> |rows[i].lines| == rows[0].height
  {
    forall i | 0 <= i < |rows| ensures |rows[i].lines| == rows[0].height { assert rows[i].Extent(0) == rows[0].Extent(0); }
  }

  /** Row `i`: the values between its offsets, in the ragged dimension. */
  function RowOf<V>(t: Ragged<V>, i: nat): Grid<V>
    requires i + 1 < |t.offsets| && t.offsets[i] <= t.offsets[i + 1] && (t.ragged == 1 || t.ragged == 2)
    requires if t.ragged == 1 then t.offsets[i + 1] <= |t.values.lines|
             else forall r :: 0 <= r < |t.values.lines| ==> t.offsets[i + 1] <= |t.values.lines[r]|
  {
    var lo, hi := t.offsets[i], t.offsets[i + 1];
    if t.ragged == 1 then Grid(hi - lo, t.values.width, t.values.lines[lo..hi])
    else Grid(t.values.height, hi - lo,
              seq(|t.values.lines|, r requires 0 <= r < |t.values.lines| => t.values.lines[r][lo..hi]))
  }

  lemma {:induction false} OffsetsOfLengths<A, B>(a: seq<seq<A>>, b: seq<seq<B>>)
    requires |a| == |b| && forall i :: 0 <= i < |a| ==> |a[i]| == |b[i]|
    ensures Offsets(a) == Offsets(b)
  {
    if a != [] { OffsetsOfLengths(a[..|a| - 1], b[..|b| - 1]); }
  }

  /** The tensor has the rows it was built from, whichever dimension is ragged. */
  lemma FromListRows<V>(rows: seq<Grid<V>>, ragged: nat, i: nat)
    requires Fitting(rows, ragged) && i < |rows|
    ensures var t := FromList(rows, ragged);
      && |t.offsets| == |rows| + 1 && t.offsets[i] <= t.offsets[i + 1]
      && (if ragged == 1 then t.offsets[i + 1] <= |t.values.lines|
          else forall r :: 0 <= r < |t.values.lines| ==> t.offsets[i + 1] <= |t.values.lines[r]|)
      && RowOf(t, i) == rows[i]
  {
    hide Offsets, Flatten;
    var t := FromList(rows, ragged);
    if ragged == 1 {
      OffsetsOfLengths(Lengths(rows, 0), Blocks(rows));
      FlattenAt(Blocks(rows), i);
      assert rows[i].width == rows[0].width by { assert rows[i].Extent(1) == rows[0].Extent(1); }
    } else {
      SameHeight(rows, ragged);
      OffsetsOfLengths(Lengths(rows, 1), Lengths(rows, 1));
      FlattenAt(Lengths(rows, 1), i);
      forall r: nat | r < |t.values.lines|
        ensures t.offsets[i + 1] <= |t.values.lines[r]| && t.values.lines[r][t.offsets[i]..t.offsets[i + 1]] == rows[i].lines[r]
      {
        OffsetsOfLengths(Lengths(rows, 1), LinesAt(rows, r));
        FlattenAt(LinesAt(rows, r), i);
      }
      assert RowOf(t, i).lines == rows[i].lines;
    }
  }

  // ---------------------------------------------------------------- the fallback

  function MaxExtent<V>(rows: seq<Grid<V>>, dim: nat): (n: nat)
    ensures forall i :: 0 <= i < |rows| ==> rows[i].Extent(dim) <= n
  {
    if rows == [] then 0
    else
      var n := MaxExtent(rows[..|rows| - 1], dim);
      if n < rows[|rows| - 1].Extent(dim) then rows[|rows| - 1].Extent(dim) else n
  }

  /** A row of the padded tensor: filled up in the ragged dimension. */
  function Pad<V>(g: Grid<V>, ragged: nat, n: nat, zero: V): Grid<V>
    requires g.Valid() && (ragged == 1 || ragged == 2) && g.Extent(ragged - 1) <= n
  {
    if ragged == 1 then Grid(n, g.width, g.lines + seq(n - g.height, _ => seq(g.width, _ => zero)))
    else Grid(g.height, n, seq(g.height, r requires 0 <= r < g.height => g.lines[r] + seq(n - g.width, _ => zero)))
  }

  /** `padded[i][:length]`: the fallback cuts the first dimension, by the length in the ragged one. */
  function ViaPaddedRow<V>(rows: seq<Grid<V>>, ragged: nat, i: nat, zero: V): Grid<V>
    requires Fitting(rows, ragged) && i < |rows|
  {
    var padded := Pad(rows[i], ragged, MaxExtent(rows, ragged - 1), zero);
    var n := rows[i].Extent(ragged - 1);
    if n < padded.height then Grid(n, padded.width, padded.lines[..n]) else padded
  }

  /**
   * The fallback restores a row exactly when the ragged dimension is the first one, or the row is as wide as the
   * widest and no higher than wide.
   */
  lemma FallbackRestores<V>(rows: seq<Grid<V>>, ragged: nat, i: nat, zero: V)
    requires Fitting(rows, ragged) && i < |rows|
    ensures ViaPaddedRow(rows, ragged, i, zero) == rows[i]
      <==> ragged == 1 || (rows[i].width == MaxExtent(rows, 1) && rows[i].height <= rows[i].width)
  {
    hide MaxExtent, ViaPaddedRow;
    if ragged == 1 { FirstDimension(rows, i, zero); } else { SecondDimension(rows, i, zero); }
  }

  lemma FirstDimension<V>(rows: seq<Grid<V>>, i: nat, zero: V)
    requires Fitting(rows, 1) && i < |rows|
    ensures ViaPaddedRow(rows, 1, i, zero) == rows[i]
  {
    hide MaxExtent;
    var g, n := rows[i], MaxExtent(rows, 0);
    assert g.Valid() && g.Extent(0) <= n;
    assert (g.lines + seq(n - g.height, _ => seq(g.width, _ => zero)))[..g.height] == g.lines;
  }

  lemma SecondDimension<V>(rows: seq<Grid<V>>, i: nat, zero: V)
    requires Fitting(rows, 2) && i < |rows|
    ensures ViaPaddedRow(rows, 2, i, zero) == rows[i]
      <==> rows[i].width == MaxExtent(rows, 1) && rows[i].height <= rows[i].width
  {
    hide MaxExtent;
    var g, n := rows[i], MaxExtent(rows, 1);
    assert g.Valid() && g.Extent(1) <= n;
    hide Fitting;
    var padded := Pad(g, 2, n, zero);
    if g.width == n {
      forall r | 0 <= r < g.height ensures padded.lines[r] == g.lines[r] {}
      assert padded.lines == g.lines;
    } else {
      assert padded.width != g.width;
    }
  }

  /** Two rows of position ids, ragged in the second dimension: the shorter one keeps its padding. */
  lemma FallbackKeepsPadding<V>(x: V, zero: V)
    ensures var rows := [Grid(1, 1, [[x]]), Grid(1, 2, [[x, x]])];
      && Fitting(rows, 2) && ViaPaddedRow(rows, 2, 0, zero) == Grid(1, 2, [[x, zero]])
  {
    var rows := [Grid(1, 1, [[x]]), Grid(1, 2, [[x, x]])];
    assert rows[..1] == [Grid(1, 1, [[x]])] && rows[..1][..0] == [];
    assert MaxExtent(rows[..1], 1) == 1 && MaxExtent(rows, 1) == 2;
    assert [x] + seq(1, _ => zero) == [x, zero];
    assert Pad(rows[0], 2, 2, zero).lines == [[x] + seq(1, _ => zero)];
  }
}
