/**
 * Sending a batch to data-parallel workers: pad to a multiple, chunk, compute, concatenate, drop the padding.
 *
 * A batch is a table of columns, and every claim is about its rows: a jagged column has the rows it was built from,
 * slicing and concatenating batches slices and concatenates the rows of every field, padding repeats them cyclically,
 * and so a computation that treats each row on its own may be spread over any number of workers.
 */
module DataDispatch {
  import opened NatArithmetic
  import opened Options
  import opened Sequences

  /**
   * A field: a regular tensor, a nested tensor with jagged layout, or an array of objects. `deep` marks nested tensors
   * of three dimensions or more, on which `unbind` raises.
   */
  datatype Column<V> = Regular(rows: seq<seq<V>>) | Jagged(values: seq<V>, offsets: seq<nat>, deep: bool)
                     | Objects(items: seq<V>) {

    ghost predicate WellFormed() {
      Jagged? ==>
        && |offsets| > 0 && offsets[0] == 0 && offsets[|offsets| - 1] == |values|
        && forall i, j :: 0 <= i <= j < |offsets| ==> offsets[i] <= offsets[j]
    }

    /** What each row holds. */
    function Rows(): (r: seq<seq<V>>)
      requires WellFormed()
    {
      match this
      case Regular(rows) => rows
      case Jagged(_, _, _) => Slices()
      case Objects(items) => seq(|items|, i requires 0 <= i < |items| => [items[i]])
    }

    /** The values between consecutive offsets. */
    function Slices(): (r: seq<seq<V>>)
      requires Jagged? && WellFormed()
      ensures |r| == |offsets| - 1
    {
      seq(|offsets| - 1, i requires 0 <= i < |offsets| - 1 => values[offsets[i]..offsets[i + 1]])
    }

    predicate Unbinds() {
      Jagged? ==> !deep
    }

    predicate SameKind(c: Column<V>) {
      (Regular? && c.Regular?) || (Jagged? && c.Jagged? && deep == c.deep) || (Objects? && c.Objects?)
    }
  }

  // ---------------------------------------------------------------- jagged tensors

  /** Running totals of the row lengths. */
  function Offsets<V>(rows: seq<seq<V>>): (r: seq<nat>)
    ensures |r| == |rows| + 1 && r[0] == 0
  {
    if rows == [] then [0]
    else
      var before := Offsets(rows[..|rows| - 1]);
      before + [before[|before| - 1] + |rows[|rows| - 1]|]
  }

  /** A jagged tensor from a list of rows, which must not be empty. */
  function Nested<V>(rows: seq<seq<V>>, deep: bool): Column<V>
    requires rows != []
  {
    Jagged(Flatten(rows), Offsets(rows), deep)
  }

  lemma {:induction false} OffsetsTotal<V>(rows: seq<seq<V>>)
    ensures Offsets(rows)[|rows|] == |Flatten(rows)| && Jagged(Flatten(rows), Offsets(rows), false).WellFormed()
  {
    if rows != [] { OffsetsTotal(rows[..|rows| - 1]); }
  }

  /** Row `i` ends where its offset says. */
  lemma {:induction false} FlattenAt<V>(rows: seq<seq<V>>, i: nat)
    requires i < |rows|
    ensures Offsets(rows)[i] <= Offsets(rows)[i + 1] <= |Flatten(rows)|
    ensures Flatten(rows)[Offsets(rows)[i]..Offsets(rows)[i + 1]] == rows[i]
  {
    var front, last := rows[..|rows| - 1], rows[|rows| - 1];
    OffsetsTotal(front);
    if i < |front| { FlattenAt(front, i); }
  }

  lemma NestedRows<V>(rows: seq<seq<V>>, deep: bool)
    requires rows != []
    ensures Nested(rows, deep).WellFormed() && Nested(rows, deep).Rows() == rows
  {
    OffsetsTotal(rows);
    hide Offsets, Flatten;
    forall i | 0 <= i < |rows| ensures Nested(rows, deep).Rows()[i] == rows[i] {
      FlattenAt(rows, i);
    }
  }

  function MaxLength<V>(rows: seq<seq<V>>): (n: nat)
    ensures forall i :: 0 <= i < |rows| ==> |rows[i]| <= n
  {
    if rows == [] then 0
    else
      var n := MaxLength(rows[..|rows| - 1]);
      if n < |rows[|rows| - 1]| then |rows[|rows| - 1]| else n
  }

  /** Every row filled up with `zero` to the longest one. */
  function ToPadded<V>(rows: seq<seq<V>>, zero: V): seq<seq<V>> {
    seq(|rows|, i requires 0 <= i < |rows| => rows[i] + seq(MaxLength(rows) - |rows[i]|, _ => zero))
  }

  /** The fallback when unbinding raises: cut the padded rows to the lengths the offsets give. */
  function ViaPadded<V>(c: Column<V>, zero: V): seq<seq<V>>
    requires c.Jagged? && c.WellFormed()
  {
    var padded := ToPadded(c.Rows(), zero);
    seq(|c.offsets| - 1, i requires 0 <= i < |c.offsets| - 1 =>
      var n := c.offsets[i + 1] - c.offsets[i];
      if n <= |padded[i]| then padded[i][..n] else padded[i])
  }

  /** The fallback gives the same rows. */
  lemma FallbackIsUnbind<V>(c: Column<V>, zero: V)
    requires c.Jagged? && c.WellFormed()
    ensures ViaPadded(c, zero) == c.Rows()
  {}

  // ---------------------------------------------------------------- columns

  /** `slice` on one field: a tensor that does not unbind goes through the padded form. */
  function SliceColumn<V>(c: Column<V>, lo: nat, hi: nat, zero: V): Column<V>
    requires c.WellFormed() && lo <= hi <= |c.Rows()| && (c.Jagged? ==> lo < hi)
  {
    match c
    case Regular(rows) => Regular(rows[lo..hi])
    case Jagged(_, _, deep) =>
      FallbackIsUnbind(c, zero);
      Nested((if c.Unbinds() then c.Slices() else ViaPadded(c, zero))[lo..hi], deep)
    case Objects(items) => Objects(items[lo..hi])
  }

  lemma SliceColumnRows<V>(c: Column<V>, lo: nat, hi: nat, zero: V)
    requires c.WellFormed() && lo <= hi <= |c.Rows()| && (c.Jagged? ==> lo < hi)
    ensures var r := SliceColumn(c, lo, hi, zero);
      r.WellFormed() && r.SameKind(c) && r.Rows() == c.Rows()[lo..hi]
  {
    if c.Jagged? {
      FallbackIsUnbind(c, zero);
      NestedRows(c.Rows()[lo..hi], c.deep);
    }
  }

  /** The columns of a field in several batches, all of one kind. */
  ghost predicate Compatible<V>(cs: seq<Column<V>>) {
    cs != [] && forall i :: 0 <= i < |cs| ==> cs[i].WellFormed() && cs[i].SameKind(cs[0])
  }

  ghost function RowLists<V>(cs: seq<Column<V>>): (r: seq<seq<seq<V>>>)
    requires forall i :: 0 <= i < |cs| ==> cs[i].WellFormed()
    ensures |r| == |cs|
  {
    seq(|cs|, i requires 0 <= i < |cs| => cs[i].Rows())
  }

  /** `concat` on one field; it unbinds nested tensors without a fallback and needs a row to build the result from. */
  function ConcatColumn<V>(cs: seq<Column<V>>): Option<Column<V>>
    requires Compatible(cs)
  {
    match cs[0]
    case Regular(_) => Some(Regular(Flatten(seq(|cs|, i requires 0 <= i < |cs| => cs[i].rows))))
    case Jagged(_, _, deep) =>
      if exists i | 0 <= i < |cs| :: !cs[i].Unbinds() then None
      else
        var rows := Flatten(seq(|cs|, i requires 0 <= i < |cs| => cs[i].Slices()));
        if rows == [] then None else Some(Nested(rows, deep))
    case Objects(_) => Some(Objects(Flatten(seq(|cs|, i requires 0 <= i < |cs| => cs[i].items))))
  }

  lemma ConcatColumnRows<V>(cs: seq<Column<V>>)
    requires Compatible(cs)
    ensures ConcatColumn(cs).Some? <==> cs[0].Unbinds() && (cs[0].Jagged? ==> Flatten(RowLists(cs)) != [])
    ensures var r := ConcatColumn(cs);
      r.Some? ==> r.value.WellFormed() && r.value.SameKind(cs[0]) && r.value.Rows() == Flatten(RowLists(cs))
  {
    match cs[0]
    case Regular(_) => assert seq(|cs|, i requires 0 <= i < |cs| => cs[i].rows) == RowLists(cs);
    case Jagged(_, _, deep) =>
      assert seq(|cs|, i requires 0 <= i < |cs| => cs[i].Slices()) == RowLists(cs);
      assert deep ==> !cs[0].Unbinds();
      if Flatten(RowLists(cs)) != [] { NestedRows(Flatten(RowLists(cs)), deep); }
    case Objects(_) => ObjectRows(cs);
  }

  lemma {:induction false} ObjectRows<V>(cs: seq<Column<V>>)
    requires forall i :: 0 <= i < |cs| ==> cs[i].Objects?
    ensures Objects(Flatten(seq(|cs|, i requires 0 <= i < |cs| => cs[i].items))).Rows() == Flatten(RowLists(cs))
  {
    if cs != [] {
      var front, last := cs[..|cs| - 1], cs[|cs| - 1];
      ObjectRows(front);
      var items := seq(|cs|, i requires 0 <= i < |cs| => cs[i].items);
      assert items[..|front|] == seq(|front|, i requires 0 <= i < |front| => front[i].items);
      assert RowLists(cs)[..|front|] == RowLists(front);
    }
  }

  // ---------------------------------------------------------------- batches

  datatype Batch<V> = Batch(size: nat, columns: map<string, Column<V>>) {

    ghost predicate Valid() {
      forall k :: k in columns ==> columns[k].WellFormed() && |columns[k].Rows()| == size
    }

    predicate Unbinds() {
      forall k | k in columns :: columns[k].Unbinds()
    }

    predicate HasJagged() {
      exists k | k in columns :: columns[k].Jagged?
    }

    predicate SameSchema(b: Batch<V>) {
      columns.Keys == b.columns.Keys && forall k :: k in columns && k in b.columns ==> columns[k].SameKind(b.columns[k])
    }

    ghost function Table(k: string): (r: seq<seq<V>>)
      requires Valid() && k in columns
      ensures |r| == size
    {
      columns[k].Rows()
    }

    /** Row `i` across all fields. */
    ghost function Row(i: nat): map<string, seq<V>>
      requires Valid() && i < size
    {
      map k | k in columns :: columns[k].Rows()[i]
    }
  }

  lemma SchemaDecides<V>(a: Batch<V>, b: Batch<V>)
    requires a.SameSchema(b)
    ensures a.Unbinds() == b.Unbinds() && a.HasJagged() == b.HasJagged()
  {
    forall k | k in a.columns || k in b.columns ensures k in a.columns && k in b.columns {
      assert k in a.columns.Keys && k in b.columns.Keys;
    }
  }

  /** What the tensor library brings: whether its `chunk` takes jagged tensors, and the padding value. */
  datatype Backend<V> = Backend(chunksJagged: bool, zero: V)

  function Slice<V>(b: Batch<V>, lo: nat, hi: nat, backend: Backend<V>): Batch<V>
    requires b.Valid() && lo <= hi <= b.size && (b.HasJagged() ==> lo < hi)
  {
    Batch(hi - lo, map k | k in b.columns :: SliceColumn(b.columns[k], lo, hi, backend.zero))
  }

  lemma SliceTables<V>(b: Batch<V>, lo: nat, hi: nat, backend: Backend<V>)
    requires b.Valid() && lo <= hi <= b.size && (b.HasJagged() ==> lo < hi)
    ensures var r := Slice(b, lo, hi, backend);
      r.Valid() && r.SameSchema(b) && forall k :: k in b.columns ==> r.Table(k) == b.Table(k)[lo..hi]
  {
    forall k | k in b.columns
      ensures var c := SliceColumn(b.columns[k], lo, hi, backend.zero);
        c.WellFormed() && c.SameKind(b.columns[k]) && c.Rows() == b.columns[k].Rows()[lo..hi]
    {
      SliceColumnRows(b.columns[k], lo, hi, backend.zero);
    }
  }

  /** Batches that can be concatenated. */
  ghost predicate Stackable<V>(bs: seq<Batch<V>>) {
    bs != [] && forall i :: 0 <= i < |bs| ==> bs[i].Valid() && bs[0].SameSchema(bs[i])
  }

  function Field<V>(bs: seq<Batch<V>>, k: string): (r: seq<Column<V>>)
    requires forall i :: 0 <= i < |bs| ==> k in bs[i].columns
    ensures |r| == |bs|
  {
    seq(|bs|, i requires 0 <= i < |bs| => bs[i].columns[k])
  }

  lemma FieldCompatible<V>(bs: seq<Batch<V>>, k: string)
    requires Stackable(bs) && k in bs[0].columns
    ensures forall i :: 0 <= i < |bs| ==> k in bs[i].columns
    ensures Compatible(Field(bs, k))
  {
    forall i | 0 <= i < |bs| ensures k in bs[i].columns && bs[i].columns[k].SameKind(bs[0].columns[k]) {
      assert bs[0].SameSchema(bs[i]);
      assert k in bs[i].columns.Keys;
    }
  }

  function TotalSize<V>(bs: seq<Batch<V>>): nat {
    if bs == [] then 0 else TotalSize(bs[..|bs| - 1]) + bs[|bs| - 1].size
  }

  /** `concat`, which raises when some field does. */
  function Concat<V>(bs: seq<Batch<V>>): Option<Batch<V>>
    requires Stackable(bs)
  {
    if forall k | k in bs[0].columns :: (FieldCompatible(bs, k); ConcatColumn(Field(bs, k)).Some?) then
      Some(Batch(TotalSize(bs), map k | k in bs[0].columns :: (FieldCompatible(bs, k); ConcatColumn(Field(bs, k)).value)))
    else None
  }

  ghost function Tables<V>(bs: seq<Batch<V>>, k: string): (r: seq<seq<seq<V>>>)
    requires forall i :: 0 <= i < |bs| ==> bs[i].Valid() && k in bs[i].columns
    ensures |r| == |bs|
  {
    seq(|bs|, i requires 0 <= i < |bs| => bs[i].Table(k))
  }

  lemma {:induction false} TablesLength<V>(bs: seq<Batch<V>>, k: string)
    requires forall i :: 0 <= i < |bs| ==> bs[i].Valid() && k in bs[i].columns
    ensures |Flatten(Tables(bs, k))| == TotalSize(bs)
  {
    if bs != [] {
      TablesLength(bs[..|bs| - 1], k);
      assert Tables(bs, k)[..|bs| - 1] == Tables(bs[..|bs| - 1], k);
    }
  }

  /** The rows of one field, and when its concatenation goes through. */
  lemma FieldTables<V>(bs: seq<Batch<V>>, k: string)
    requires Stackable(bs) && k in bs[0].columns
    ensures forall i :: 0 <= i < |bs| ==> k in bs[i].columns
    ensures Compatible(Field(bs, k)) && |Flatten(Tables(bs, k))| == TotalSize(bs)
    ensures var c := ConcatColumn(Field(bs, k));
      && (c.Some? <==> bs[0].columns[k].Unbinds() && (bs[0].columns[k].Jagged? ==> TotalSize(bs) > 0))
      && (c.Some? ==>
           c.value.WellFormed() && c.value.SameKind(bs[0].columns[k]) && c.value.Rows() == Flatten(Tables(bs, k)))
  {
    FieldCompatible(bs, k);
    ConcatColumnRows(Field(bs, k));
    TablesLength(bs, k);
    assert RowLists(Field(bs, k)) == Tables(bs, k);
  }

  /** One field does not get in the way. */
  predicate Goes<V>(c: Column<V>, total: nat) {
    c.Unbinds() && (c.Jagged? ==> total > 0)
  }

  lemma AllGo<V>(b: Batch<V>, total: nat)
    ensures (forall k :: k in b.columns ==> Goes(b.columns[k], total)) <==> b.Unbinds() && (b.HasJagged() ==> total > 0)
  {}

  lemma ConcatGoes<V>(bs: seq<Batch<V>>)
    requires Stackable(bs)
    ensures Concat(bs).Some? <==> forall k :: k in bs[0].columns ==> Goes(bs[0].columns[k], TotalSize(bs))
    ensures Concat(bs).Some? ==> Concat(bs).value.size == TotalSize(bs) && Concat(bs).value.columns.Keys == bs[0].columns.Keys
  {
    hide ConcatColumn, Flatten, Tables, TotalSize, Compatible, Column.WellFormed, Column.Rows, Column.SameKind, Column.Unbinds;
    forall k | k in bs[0].columns
      ensures forall i :: 0 <= i < |bs| ==> k in bs[i].columns
      ensures Compatible(Field(bs, k)) && (ConcatColumn(Field(bs, k)).Some? <==> Goes(bs[0].columns[k], TotalSize(bs)))
    {
      FieldTables(bs, k);
    }
  }

  lemma ConcatField<V>(bs: seq<Batch<V>>, k: string)
    requires Stackable(bs) && Concat(bs).Some? && k in bs[0].columns
    ensures k in Concat(bs).value.columns && forall i :: 0 <= i < |bs| ==> k in bs[i].columns
    ensures var c := Concat(bs).value.columns[k];
      && c.WellFormed() && c.SameKind(bs[0].columns[k]) && c.Rows() == Flatten(Tables(bs, k)) && |c.Rows()| == TotalSize(bs)
  {
    hide ConcatColumn, Flatten, Tables, TotalSize, Compatible, Column.WellFormed, Column.Rows, Column.SameKind, Column.Unbinds;
    FieldTables(bs, k);
  }

  /** Concatenation succeeds exactly when the nested fields unbind, and then appends the rows of every field. */
  lemma ConcatTables<V>(bs: seq<Batch<V>>)
    requires Stackable(bs)
    ensures Concat(bs).Some? <==> bs[0].Unbinds() && (bs[0].HasJagged() ==> TotalSize(bs) > 0)
    ensures Concat(bs).Some? ==>
      var r := Concat(bs).value;
      && r.Valid() && bs[0].SameSchema(r) && r.size == TotalSize(bs)
      && forall k :: k in bs[0].columns ==>
           (forall i :: 0 <= i < |bs| ==> k in bs[i].columns) && r.Table(k) == Flatten(Tables(bs, k))
  {
    hide Concat, Flatten, Tables, TotalSize, Goes, Batch.Unbinds, Batch.HasJagged, Column.WellFormed, Column.Rows;
    AllGo(bs[0], TotalSize(bs));
    ConcatGoes(bs);
    if Concat(bs).Some? {
      var r := Concat(bs).value;
      forall k | k in bs[0].columns
        ensures k in r.columns && forall i :: 0 <= i < |bs| ==> k in bs[i].columns
        ensures r.columns[k].WellFormed() && r.columns[k].SameKind(bs[0].columns[k])
        ensures r.columns[k].Rows() == Flatten(Tables(bs, k)) && |r.columns[k].Rows()| == r.size
      {
        ConcatField(bs, k);
      }
      assert r.Valid() by { forall k | k in r.columns ensures r.columns[k].WellFormed() { assert k in bs[0].columns.Keys; } }
    }
  }

  // ---------------------------------------------------------------- padding

  /** `p` holds the rows of `b` repeated cyclically. */
  ghost predicate IsCyclicOf<V>(p: Batch<V>, b: Batch<V>)
    requires p.Valid() && b.Valid() && b.size > 0
  {
    b.SameSchema(p) && forall k :: k in b.columns && k in p.columns ==> p.Table(k) == Cyclic(b.Table(k), p.size)
  }

  /** The concatenation of `parts` gives the rows of `b` cyclically, `n` of them. */
  ghost predicate Unrolls<V>(parts: seq<Batch<V>>, b: Batch<V>, n: nat)
    requires b.Valid() && b.size > 0
  {
    && Stackable(parts) && parts[0] == b && TotalSize(parts) == n
    && forall k :: k in b.columns ==>
         (forall i :: 0 <= i < |parts| ==> k in parts[i].columns) && Flatten(Tables(parts, k)) == Cyclic(b.Table(k), n)
  }

  lemma UnrollsOne<V>(b: Batch<V>)
    requires b.Valid() && b.size > 0
    ensures Unrolls([b], b, b.size)
  {
    assert [b][..0] == [];
    forall k | k in b.columns ensures Flatten(Tables([b], k)) == Cyclic(b.Table(k), b.size) {
      assert Tables([b], k) == [] + [b.Table(k)];
      FlattenAppend([], b.Table(k));
      forall i: nat | i < b.size ensures At(b.Table(k), i) == b.Table(k)[i] { AtWraps(b.Table(k), i); }
    }
  }

  /** One more slice from the front after whole repetitions. */
  lemma UnrollsMore<V>(parts: seq<Batch<V>>, b: Batch<V>, n: nat, take: nat, backend: Backend<V>)
    requires b.Valid() && b.size > 0 && Unrolls(parts, b, n) && n % b.size == 0 && 0 < take <= b.size
    ensures Unrolls(parts + [Slice(b, 0, take, backend)], b, n + take)
  {
    hide Flatten, Slice, Cyclic, TotalSize, Batch.HasJagged, Column.WellFormed, Column.Rows, Column.SameKind;
    var s := Slice(b, 0, take, backend);
    SliceTables(b, 0, take, backend);
    SliceSize(b, 0, take, backend);
    var all := parts + [s];
    StackMore(parts, b, s);
    forall k | k in b.columns
      ensures forall i :: 0 <= i < |all| ==> k in all[i].columns
      ensures Flatten(Tables(all, k)) == Cyclic(b.Table(k), n + take)
    {
      StackKeys(all, k);
      assert Tables(all, k) == Tables(parts, k) + [s.Table(k)];
      FlattenAppend(Tables(parts, k), s.Table(k));
      CyclicExtend(b.Table(k), n, take);
    }
  }

  lemma SliceSize<V>(b: Batch<V>, lo: nat, hi: nat, backend: Backend<V>)
    requires b.Valid() && lo <= hi <= b.size && (b.HasJagged() ==> lo < hi)
    ensures Slice(b, lo, hi, backend).size == hi - lo
  {}

  lemma StackMore<V>(parts: seq<Batch<V>>, b: Batch<V>, s: Batch<V>)
    requires Stackable(parts) && parts[0] == b && s.Valid() && s.SameSchema(b)
    ensures Stackable(parts + [s]) && TotalSize(parts + [s]) == TotalSize(parts) + s.size
  {
    var all := parts + [s];
    assert all[..|parts|] == parts;
    forall i | 0 <= i < |all| ensures all[i].Valid() && all[0].SameSchema(all[i]) {
      if i < |parts| { assert all[i] == parts[i]; }
    }
  }

  lemma StackKeys<V>(bs: seq<Batch<V>>, k: string)
    requires Stackable(bs) && k in bs[0].columns
    ensures forall i :: 0 <= i < |bs| ==> bs[i].Valid() && k in bs[i].columns
  {
    forall i | 0 <= i < |bs| ensures k in bs[i].columns {
      assert bs[0].SameSchema(bs[i]);
      assert k in bs[i].columns.Keys;
    }
  }

  lemma UnrolledIsCyclic<V>(parts: seq<Batch<V>>, b: Batch<V>, n: nat)
    requires b.Valid() && b.size > 0 && Unrolls(parts, b, n) && n > 0
    ensures Stackable(parts) && (Concat(parts).Some? <==> b.Unbinds())
    ensures Concat(parts).Some? ==> var p := Concat(parts).value; p.Valid() && p.size == n && IsCyclicOf(p, b)
  {
    hide Concat;
    ConcatTables(parts);
  }

  /** `pad_dataproto_to_divisor`: it raises exactly when there is something to pad and a nested field does not unbind. */
  method PadToDivisor<V>(b: Batch<V>, divisor: nat, backend: Backend<V>) returns (padded: Option<Batch<V>>, padSize: nat)
    requires b.Valid() && divisor > 0
    ensures padded.Some? <==> b.size % divisor == 0 || b.Unbinds()
    ensures padded.Some? ==>
      var p := padded.value;
      && p.Valid() && p.size == b.size + padSize && p.size % divisor == 0 && padSize < divisor
      && if b.size == 0 then p == b else IsCyclicOf(p, b)
  {
    hide Unrolls, Concat, Slice, IsCyclicOf, Batch.Unbinds, Batch.HasJagged;
    if b.size > 0 { UnrollsOne(b); }
    if b.size % divisor != 0 {
      RoundUp(b.size, divisor);
      padSize := divisor - b.size % divisor;
      var parts := [b];
      var remaining := padSize;
      ghost var n := b.size;
      ModMultiple(0, 0, n);
      while remaining > 0
        invariant 0 <= remaining <= padSize && n == b.size + (padSize - remaining)
        invariant Unrolls(parts, b, n)
        invariant remaining > 0 ==> n % b.size == 0
      {
        var take := if remaining < b.size then remaining else b.size;
        UnrollsMore(parts, b, n, take, backend);
        ModMultiple(n, 0, b.size);
        parts := parts + [Slice(b, 0, take, backend)];
        remaining, n := remaining - take, n + take;
      }
      UnrolledIsCyclic(parts, b, n);
      padded := Concat(parts);
    } else {
      padSize := 0;
      padded := Some(b);
      if b.size > 0 { ItselfIsCyclic(b); }
    }
  }

  /** A field that does not unbind can be sliced, but the slice cannot be appended. */
  lemma SliceDoesNotAppend<V>(b: Batch<V>, take: nat, backend: Backend<V>)
    requires b.Valid() && !b.Unbinds() && 0 < take <= b.size
    ensures var s := Slice(b, 0, take, backend);
      && s.Valid() && s.size == take && (forall k :: k in b.columns ==> k in s.columns && s.Table(k) == b.Table(k)[..take])
      && Stackable([b, s]) && Concat([b, s]) == None
  {
    hide Slice, Concat, Batch.Unbinds, Batch.HasJagged, Column.WellFormed, Column.Rows;
    SliceTables(b, 0, take, backend);
    SliceSize(b, 0, take, backend);
    var s := Slice(b, 0, take, backend);
    forall k | k in b.columns ensures k in s.columns { assert k in s.columns.Keys; }
    assert b.SameSchema(b) && b.SameSchema(s);
    ConcatTables([b, s]);
  }

  /** Three rows of a deep field, to be padded for two workers. */
  function DeepRows<V>(x: V): Batch<V> {
    Batch(3, map["position_ids" := Jagged([x, x, x], [0, 1, 2, 3], true)])
  }

  lemma DeepRowsDoNotPad<V>(x: V, backend: Backend<V>)
    ensures DeepRows(x).Valid() && DeepRows(x).size % 2 != 0 && !DeepRows(x).Unbinds()
    ensures Slice(DeepRows(x), 0, 1, backend).Valid()
    ensures Stackable([DeepRows(x), Slice(DeepRows(x), 0, 1, backend)])
    ensures Concat([DeepRows(x), Slice(DeepRows(x), 0, 1, backend)]) == None
  {
    hide Slice, Concat, Stackable;
    assert DeepRows(x).Valid();
    assert !DeepRows(x).columns["position_ids"].Unbinds();
    SliceDoesNotAppend(DeepRows(x), 1, backend);
  }

  lemma ItselfIsCyclic<V>(b: Batch<V>)
    requires b.Valid() && b.size > 0
    ensures IsCyclicOf(b, b)
  {
    forall k | k in b.columns ensures b.Table(k) == Cyclic(b.Table(k), b.size) {
      forall i: nat | i < b.size ensures At(b.Table(k), i) == b.Table(k)[i] { AtWraps(b.Table(k), i); }
    }
  }

  /** `unpad_dataproto` */
  function Unpad<V>(b: Batch<V>, padSize: nat, backend: Backend<V>): Batch<V>
    requires b.Valid() && padSize <= b.size && (b.HasJagged() && padSize > 0 ==> padSize < b.size)
  {
    if padSize != 0 then Slice(b, 0, b.size - padSize, backend) else b
  }

  /** Dropping the padding undoes it, field by field. */
  lemma UnpadTables<V>(b: Batch<V>, padSize: nat, backend: Backend<V>)
    requires b.Valid() && padSize < b.size
    ensures var r := Unpad(b, padSize, backend);
      && r.Valid() && r.size == b.size - padSize && r.SameSchema(b)
      && forall k :: k in b.columns ==> r.Table(k) == b.Table(k)[..b.size - padSize]
  {
    SliceTables(b, 0, b.size - padSize, backend);
  }

  // ---------------------------------------------------------------- chunks

  /** Equal chunks of a non-empty batch; the method asserts that they come out even. */
  function Chunk<V>(b: Batch<V>, chunks: nat, backend: Backend<V>): (r: Option<seq<Batch<V>>>)
    requires b.Valid() && b.size > 0 && chunks > 0 && b.size % chunks == 0
    ensures r.Some? <==> !b.HasJagged() || backend.chunksJagged
    ensures r.Some? ==> |r.value| == chunks
  {
    if b.HasJagged() && !backend.chunksJagged then None
    else
      ChunksFit(b.size, chunks);
      ChunksHaveRows(b.size, chunks);
      var size := b.size / chunks;
      Some(seq(chunks, i requires 0 <= i < chunks => Slice(b, Times(i, size), Times(i, size) + size, backend)))
  }

  lemma ChunksHaveRows(n: nat, chunks: nat)
    requires n > 0 && chunks > 0 && n % chunks == 0
    ensures n / chunks > 0
  {
    hide Times;
    Quotient(n, chunks);
    TimesStep(0, chunks);
  }

  lemma ChunksFit(n: nat, chunks: nat)
    requires chunks > 0 && n % chunks == 0
    ensures Times(chunks, n / chunks) == n
    ensures forall i: nat :: i < chunks ==> Times(i, n / chunks) + n / chunks <= n
  {
    hide Times;
    Quotient(n, chunks);
    TimesLaws(chunks, n / chunks, 0);
    forall i: nat | i < chunks ensures Times(i, n / chunks) + n / chunks <= n { GroupFits(i, chunks, n / chunks); }
  }

  // ---------------------------------------------------------------- the round trip

  /** `f` computes every output row from the input row at the same place by `g`, in the layout of `schema`. */
  ghost predicate RowWise<V(!new)>(f: Batch<V> -> Batch<V>, g: (string, map<string, seq<V>>) -> seq<V>, schema: Batch<V>) {
    forall b: Batch<V> :: b.Valid() && b.size > 0 ==> ComputesRows(b, f(b), g, schema)
  }

  ghost predicate ComputesRows<V>(b: Batch<V>, r: Batch<V>, g: (string, map<string, seq<V>>) -> seq<V>, schema: Batch<V>) {
    && b.Valid() && r.Valid() && r.size == b.size && schema.SameSchema(r)
    && forall k, i: nat :: k in r.columns && i < b.size ==> r.Table(k)[i] == g(k, b.Row(i))
  }

  /** `c` holds the rows of `b` from `at` on. */
  ghost predicate ChunkRows<V>(b: Batch<V>, c: Batch<V>, at: nat)
    requires b.Valid()
  {
    c.Valid() && at + c.size <= b.size && forall j: nat :: j < c.size ==> c.Row(j) == b.Row(at + j)
  }

  lemma ChunkIsSlice<V>(b: Batch<V>, chunks: nat, i: nat, backend: Backend<V>)
    requires b.Valid() && b.size > 0 && chunks > 0 && b.size % chunks == 0 && i < chunks
    requires Chunk(b, chunks, backend).Some?
    ensures var c := Chunk(b, chunks, backend).value[i];
      c.size == b.size / chunks && ChunkRows(b, c, Times(i, b.size / chunks))
  {
    hide Times, Slice, ChunkRows;
    ChunksFit(b.size, chunks);
    ChunksHaveRows(b.size, chunks);
    var at, size := Times(i, b.size / chunks), b.size / chunks;
    SliceIsChunk(b, at, at + size, backend);
  }

  lemma SliceIsChunk<V>(b: Batch<V>, lo: nat, hi: nat, backend: Backend<V>)
    requires b.Valid() && lo < hi <= b.size
    ensures var c := Slice(b, lo, hi, backend); c.size == hi - lo && ChunkRows(b, c, lo)
  {
    hide Slice;
    var c := Slice(b, lo, hi, backend);
    SliceSize(b, lo, hi, backend);
    SliceTables(b, lo, hi, backend);
    forall j: nat | j < c.size ensures c.Row(j) == b.Row(lo + j) {
      forall k | k in b.columns ensures c.columns[k].Rows()[j] == b.columns[k].Rows()[lo + j] {
        assert c.Table(k) == b.Table(k)[lo..hi];
      }
    }
  }

  lemma StackableOutputs<V>(outs: seq<Batch<V>>, schema: Batch<V>)
    requires outs != [] && forall i :: 0 <= i < |outs| ==> outs[i].Valid() && schema.SameSchema(outs[i])
    ensures Stackable(outs)
  {}

  lemma {:induction false} TotalSizeEven<V>(outs: seq<Batch<V>>, size: nat)
    requires forall i :: 0 <= i < |outs| ==> outs[i].size == size
    ensures TotalSize(outs) == Times(|outs|, size)
  {
    hide Times;
    TimesStep(|outs|, size);
    if outs != [] { TotalSizeEven(outs[..|outs| - 1], size); }
  }

  ghost function ComputedRows<V>(b: Batch<V>, g: (string, map<string, seq<V>>) -> seq<V>, k: string): (r: seq<seq<V>>)
    requires b.Valid()
    ensures |r| == b.size
  {
    seq(b.size, t requires 0 <= t < b.size => g(k, b.Row(t)))
  }

  /** The output of a chunk is the corresponding piece of the output of the whole. */
  lemma ChunkOutput<V>(b: Batch<V>, c: Batch<V>, r: Batch<V>, at: nat, g: (string, map<string, seq<V>>) -> seq<V>,
                       schema: Batch<V>, k: string)
    requires b.Valid() && ChunkRows(b, c, at) && ComputesRows(c, r, g, schema) && k in schema.columns
    ensures k in r.columns && r.Table(k) == ComputedRows(b, g, k)[at..at + c.size]
  {
    assert k in r.columns.Keys;
    forall j: nat | j < c.size ensures r.Table(k)[j] == ComputedRows(b, g, k)[at + j] {
      assert c.Row(j) == b.Row(at + j);
    }
  }

  /**
   * Running `f` on every chunk and concatenating is running it on the whole batch, provided the outputs have no
   * nested field that does not unbind.
   */
  lemma ChunkwiseIsWhole<V(!new)>(b: Batch<V>, chunks: nat, f: Batch<V> -> Batch<V>, g: (string, map<string, seq<V>>) -> seq<V>,
                                  schema: Batch<V>, backend: Backend<V>)
    requires b.Valid() && b.size > 0 && chunks > 0 && b.size % chunks == 0 && RowWise(f, g, schema)
    requires Chunk(b, chunks, backend).Some?
    ensures var outs := Outputs(b, chunks, f, backend);
      && Stackable(outs) && (Concat(outs).Some? <==> schema.Unbinds())
      && (Concat(outs).Some? ==> ComputesRows(b, Concat(outs).value, g, schema))
  {
    hide Times, Chunk, Concat, ChunkRows, ComputesRows;
    var size := b.size / chunks;
    ChunksFit(b.size, chunks);
    var ins, outs := Chunk(b, chunks, backend).value, Outputs(b, chunks, f, backend);
    forall i: nat | i < chunks
      ensures ins[i].size == size && ChunkRows(b, ins[i], Times(i, size)) && ComputesRows(ins[i], outs[i], g, schema)
    {
      ChunkIsSlice(b, chunks, i, backend);
      NonEmptyChunk(b, chunks, ins[i], Times(i, size), f, g, schema);
    }
    OutputsStack(b, ins, outs, g, schema, size);
  }

  function Outputs<V>(b: Batch<V>, chunks: nat, f: Batch<V> -> Batch<V>, backend: Backend<V>): (r: seq<Batch<V>>)
    requires b.Valid() && b.size > 0 && chunks > 0 && b.size % chunks == 0 && Chunk(b, chunks, backend).Some?
    ensures |r| == chunks
  {
    seq(chunks, i requires 0 <= i < chunks => f(Chunk(b, chunks, backend).value[i]))
  }

  lemma NonEmptyChunk<V(!new)>(b: Batch<V>, chunks: nat, c: Batch<V>, at: nat, f: Batch<V> -> Batch<V>,
                               g: (string, map<string, seq<V>>) -> seq<V>, schema: Batch<V>)
    requires b.Valid() && b.size > 0 && chunks > 0 && b.size % chunks == 0 && RowWise(f, g, schema)
    requires ChunkRows(b, c, at) && c.size == b.size / chunks
    ensures ComputesRows(c, f(c), g, schema)
  {
    ChunksHaveRows(b.size, chunks);
  }

  lemma OutputsStack<V(!new)>(b: Batch<V>, ins: seq<Batch<V>>, outs: seq<Batch<V>>, g: (string, map<string, seq<V>>) -> seq<V>,
                              schema: Batch<V>, size: nat)
    requires b.Valid() && |ins| == |outs| > 0 && b.size == Times(|outs|, size) > 0
    requires forall i: nat :: i < |ins| ==>
      ins[i].size == size && ChunkRows(b, ins[i], Times(i, size)) && ComputesRows(ins[i], outs[i], g, schema)
    ensures Stackable(outs) && (Concat(outs).Some? <==> schema.Unbinds())
    ensures Concat(outs).Some? ==> ComputesRows(b, Concat(outs).value, g, schema)
  {
    hide Times, Concat, ChunkRows, ComputesRows, Stackable, Tables, Flatten, ComputedRows, Batch.Unbinds, Batch.HasJagged;
    forall i: nat | i < |outs| ensures outs[i].Valid() && schema.SameSchema(outs[i]) && outs[i].size == size {
      OutputShape(ins[i], outs[i], g, schema, b, Times(i, size));
    }
    StackableOutputs(outs, schema);
    ConcatTables(outs);
    TotalSizeEven(outs, size);
    SchemaDecides(schema, outs[0]);
    if Concat(outs).Some? {
      var whole := Concat(outs).value;
      forall k | k in schema.columns ensures k in whole.columns && whole.Table(k) == ComputedRows(b, g, k) {
        assert k in outs[0].columns.Keys && k in whole.columns.Keys;
        OutputTable(b, ins, outs, g, schema, size, k);
      }
      TablesCompute(b, whole, g, schema, outs[0]);
    }
  }

  lemma OutputTable<V(!new)>(b: Batch<V>, ins: seq<Batch<V>>, outs: seq<Batch<V>>, g: (string, map<string, seq<V>>) -> seq<V>,
                             schema: Batch<V>, size: nat, k: string)
    requires b.Valid() && |ins| == |outs| > 0 && b.size == Times(|outs|, size) && k in schema.columns
    requires forall i: nat :: i < |ins| ==>
      ins[i].size == size && ChunkRows(b, ins[i], Times(i, size)) && ComputesRows(ins[i], outs[i], g, schema)
    requires forall i :: 0 <= i < |outs| ==> outs[i].Valid() && k in outs[i].columns
    ensures Flatten(Tables(outs, k)) == ComputedRows(b, g, k)
  {
    hide Times, ChunkRows, ComputesRows, Flatten, ComputedRows;
    forall i: nat | i < |outs|
      ensures Times(i, size) + size <= b.size
      ensures Tables(outs, k)[i] == ComputedRows(b, g, k)[Times(i, size)..Times(i, size) + size]
    {
      GroupFits(i, |outs|, size);
      ChunkOutput(b, ins[i], outs[i], Times(i, size), g, schema, k);
    }
    FlattenPieces(Tables(outs, k), ComputedRows(b, g, k), size);
  }

  lemma OutputShape<V>(c: Batch<V>, r: Batch<V>, g: (string, map<string, seq<V>>) -> seq<V>, schema: Batch<V>, b: Batch<V>, at: nat)
    requires b.Valid() && ChunkRows(b, c, at) && ComputesRows(c, r, g, schema)
    ensures r.Valid() && schema.SameSchema(r) && r.size == c.size
  {}

  lemma TablesCompute<V>(b: Batch<V>, r: Batch<V>, g: (string, map<string, seq<V>>) -> seq<V>, schema: Batch<V>, first: Batch<V>)
    requires b.Valid() && r.Valid() && r.size == b.size && schema.SameSchema(first) && first.SameSchema(r)
    requires forall k :: k in schema.columns ==> k in r.columns && r.Table(k) == ComputedRows(b, g, k)
    ensures ComputesRows(b, r, g, schema)
  {
    forall k, i: nat | k in r.columns && i < b.size ensures r.Table(k)[i] == g(k, b.Row(i)) {
      assert k in schema.columns.Keys;
    }
  }

  /** Row `i` of the padded batch is row `i` modulo the original size. */
  lemma PaddedRow<V>(p: Batch<V>, b: Batch<V>, i: nat)
    requires p.Valid() && b.Valid() && b.size > 0 && IsCyclicOf(p, b) && i < p.size
    ensures i % b.size < b.size && p.Row(i) == b.Row(i % b.size)
  {
    assert p.columns.Keys == b.columns.Keys;
    forall k | k in b.columns ensures p.columns[k].Rows()[i] == b.columns[k].Rows()[i % b.size] {
      assert k in p.columns.Keys;
      assert p.Table(k)[i] == At(b.Table(k), i);
    }
  }

  /**
   * Dispatching a row-wise computation to any number of workers computes it on exactly the original rows. It raises
   * exactly when padding or collecting meets a nested field that does not unbind, or chunking one at all.
   */
  method Dispatch<V(!new)>(b: Batch<V>, workers: nat, f: Batch<V> -> Batch<V>, ghost g: (string, map<string, seq<V>>) -> seq<V>,
                           ghost schema: Batch<V>, backend: Backend<V>) returns (out: Option<Batch<V>>)
    requires b.Valid() && b.size > 0 && workers > 0 && RowWise(f, g, schema)
    ensures out.Some? <==>
      && (b.size % workers == 0 || b.Unbinds())
      && (!b.HasJagged() || backend.chunksJagged)
      && schema.Unbinds()
    ensures out.Some? ==> ComputesRows(b, out.value, g, schema)
  {
    hide RowWise, ComputesRows, Batch.Unbinds, Batch.HasJagged, Concat, Chunk;
    var padded, padSize := PadToDivisor(b, workers, backend);
    if padded.None? { return None; }
    SchemaDecides(b, padded.value);
    var chunks := Chunk(padded.value, workers, backend);
    if chunks.None? { return None; }
    ChunkwiseIsWhole(padded.value, workers, f, g, schema, backend);
    var whole := Concat(Outputs(padded.value, workers, f, backend));
    if whole.None? { return None; }
    WholeSize(padded.value, whole.value, g, schema);
    UnpadTables(whole.value, padSize, backend);
    out := Some(Unpad(whole.value, padSize, backend));
    UnpaddedRows(b, padded.value, whole.value, out.value, g, schema);
  }

  lemma WholeSize<V>(b: Batch<V>, r: Batch<V>, g: (string, map<string, seq<V>>) -> seq<V>, schema: Batch<V>)
    requires ComputesRows(b, r, g, schema)
    ensures b.Valid() && r.Valid() && r.size == b.size
  {}

  lemma UnpaddedRows<V>(b: Batch<V>, padded: Batch<V>, whole: Batch<V>, out: Batch<V>,
                        g: (string, map<string, seq<V>>) -> seq<V>, schema: Batch<V>)
    requires b.Valid() && b.size > 0 && padded.Valid() && b.size <= padded.size && IsCyclicOf(padded, b)
    requires ComputesRows(padded, whole, g, schema) && out.Valid() && out.size == b.size && out.SameSchema(whole)
    requires forall k :: k in whole.columns ==> k in out.columns && out.Table(k) == whole.Table(k)[..b.size]
    ensures ComputesRows(b, out, g, schema)
  {
    forall k, i: nat | k in out.columns && i < b.size ensures out.Table(k)[i] == g(k, b.Row(i)) {
      assert k in whole.columns.Keys;
      PaddedRow(padded, b, i);
      AtWraps(seq(b.size, j => j), i);
      assert whole.Table(k)[i] == g(k, padded.Row(i));
    }
  }
}
