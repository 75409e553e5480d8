/** The sparse view of a dense matrix: `internal/cluster/sparse.go`.

  One pair of backing arrays holds the non-zero entries of every row, and a row is
  a pair of bounds into them. */
module Sparse {
  import opened Outcomes
  import opened Vectors

  /** The row's slices `columns[start:end]` and `values[start:end]`. */
  datatype SparseRow = SparseRow(columns: array<int>, values: array<real>, start: nat, end: nat) {
    ghost predicate InBounds() {
      start <= end <= columns.Length == values.Length
    }

    function Columns(): seq<int>
      requires InBounds()
      reads columns
    {
      columns[start..end]
    }

    function Values(): seq<real>
      requires InBounds()
      reads values
    {
      values[start..end]
    }
  }

  // ---------------------------------------------------------------- the non-zero entries of a row

  /** The non-zero columns of `row` among its first `n`, in order. */
  function NonZeroColumns(row: seq<real>, n: nat): seq<int>
    requires n <= |row|
  {
    if n == 0 then []
    else NonZeroColumns(row, n - 1) + (if row[n - 1] != 0.0 then [n - 1] else [])
  }

  function NonZeroValues(row: seq<real>, n: nat): (values: seq<real>)
    requires n <= |row|
    ensures |values| == |NonZeroColumns(row, n)|
  {
    if n == 0 then []
    else NonZeroValues(row, n - 1) + (if row[n - 1] != 0.0 then [row[n - 1]] else [])
  }

  function AllColumns(rows: seq<seq<real>>, n: nat): seq<int>
    requires n <= |rows|
  {
    if n == 0 then [] else AllColumns(rows, n - 1) + NonZeroColumns(rows[n - 1], |rows[n - 1]|)
  }

  function AllValues(rows: seq<seq<real>>, n: nat): (values: seq<real>)
    requires n <= |rows|
    ensures |values| == |AllColumns(rows, n)|
  {
    if n == 0 then [] else AllValues(rows, n - 1) + NonZeroValues(rows[n - 1], |rows[n - 1]|)
  }

  /** `columns` and `values` hold exactly the non-zero entries of `row`, in ascending
      column order. */
  ghost predicate Represents(columns: seq<int>, values: seq<real>, row: seq<real>) {
    && |columns| == |values|
    && (forall k, l :: 0 <= k < l < |columns| ==> columns[k] < columns[l])
    && (forall k :: 0 <= k < |columns| ==> 0 <= columns[k] < |row|)
    && (forall k :: 0 <= k < |columns| ==> values[k] == row[columns[k]] != 0.0)
    && (forall c :: 0 <= c < |row| && row[c] != 0.0 ==> c in columns)
  }

  ghost predicate ViewOf(view: SparseRow, row: seq<real>)
    requires view.InBounds()
    reads view.columns, view.values
  {
    Represents(view.Columns(), view.Values(), row)
  }

  /** The same, for the first `n` columns of `row`. */
  ghost predicate EntriesTo(columns: seq<int>, values: seq<real>, row: seq<real>, n: nat)
    requires n <= |row|
  {
    Represents(columns, values, row[..n])
  }

  lemma EntryAppended(columns: seq<int>, values: seq<real>, row: seq<real>, n: nat)
    requires n < |row| && row[n] != 0.0 && EntriesTo(columns, values, row, n)
    ensures EntriesTo(columns + [n], values + [row[n]], row, n + 1)
  {
    forall c | 0 <= c < n + 1 && row[c] != 0.0 ensures c in columns + [n] {
      if c < n {
        assert row[..n][c] != 0.0;
        assert c in columns;
      } else {
        assert (columns + [n])[|columns|] == c;
      }
    }
  }

  lemma ZeroSkipped(columns: seq<int>, values: seq<real>, row: seq<real>, n: nat)
    requires n < |row| && row[n] == 0.0 && EntriesTo(columns, values, row, n)
    ensures EntriesTo(columns, values, row, n + 1)
  {
    forall c | 0 <= c < n + 1 && row[..n + 1][c] != 0.0 ensures c in columns {
      assert row[..n][c] != 0.0;
    }
  }

  lemma NonZeroNext(row: seq<real>, n: nat, columns: seq<int>, values: seq<real>)
    requires n < |row| && columns == NonZeroColumns(row, n) && values == NonZeroValues(row, n)
    ensures NonZeroColumns(row, n + 1) == if row[n] != 0.0 then columns + [n] else columns
    ensures NonZeroValues(row, n + 1) == if row[n] != 0.0 then values + [row[n]] else values
  {
    assert columns + [] == columns && values + [] == values;
  }

  lemma NextEntry(row: seq<real>, n: nat, columns: seq<int>, values: seq<real>)
    requires n < |row| && columns == NonZeroColumns(row, n) && values == NonZeroValues(row, n) && EntriesTo(columns, values, row, n)
    ensures EntriesTo(NonZeroColumns(row, n + 1), NonZeroValues(row, n + 1), row, n + 1)
  {
    NonZeroNext(row, n, columns, values);
    if row[n] != 0.0 {
      EntryAppended(columns, values, row, n);
    } else {
      ZeroSkipped(columns, values, row, n);
    }
  }

  lemma {:induction false} NonZeroEntries(row: seq<real>, n: nat)
    requires n <= |row|
    ensures EntriesTo(NonZeroColumns(row, n), NonZeroValues(row, n), row, n)
  {
    if n > 0 {
      NonZeroEntries(row, n - 1);
      NextEntry(row, n - 1, NonZeroColumns(row, n - 1), NonZeroValues(row, n - 1));
    }
  }

  lemma NonZeroEntriesRepresent(row: seq<real>)
    ensures Represents(NonZeroColumns(row, |row|), NonZeroValues(row, |row|), row)
  {
    NonZeroEntries(row, |row|);
    assert row[..|row|] == row;
  }

  lemma {:induction false} BackingGrows(rows: seq<seq<real>>, i: nat, n: nat)
    requires i <= n <= |rows|
    ensures |AllColumns(rows, i)| <= |AllColumns(rows, n)|
    ensures AllColumns(rows, n)[..|AllColumns(rows, i)|] == AllColumns(rows, i)
    ensures AllValues(rows, n)[..|AllColumns(rows, i)|] == AllValues(rows, i)
  {
    if i < n {
      BackingGrows(rows, i, n - 1);
    }
  }

  /** Row `i` occupies the stretch of the backing between the lengths before and after it. */
  lemma RowStretch(rows: seq<seq<real>>, i: nat)
    requires i < |rows|
    ensures var start, end := |AllColumns(rows, i)|, |AllColumns(rows, i + 1)|;
      && start <= end <= |AllColumns(rows, |rows|)|
      && AllColumns(rows, |rows|)[start..end] == NonZeroColumns(rows[i], |rows[i]|)
      && AllValues(rows, |rows|)[start..end] == NonZeroValues(rows[i], |rows[i]|)
  {
    BackingGrows(rows, i + 1, |rows|);
    var start, end := |AllColumns(rows, i)|, |AllColumns(rows, i + 1)|;
    var columns, values := AllColumns(rows, |rows|), AllValues(rows, |rows|);
    assert columns[start..end] == columns[..end][start..];
    assert values[start..end] == values[..end][start..];
  }

  // ---------------------------------------------------------------- building the view

  /** Checks the widths and counts the non-zero entries, which is the exact capacity the
      appends need. */
  method CountNonZero(rows: seq<seq<real>>) returns (r: Checked<nat>)
    ensures r.Panic? <==> !Rectangular(rows)
    ensures r.Ok? ==> r.value == |AllColumns(rows, |rows|)|
  {
    var width, nonZero := -1, 0;
    for i := 0 to |rows|
      invariant i == 0 ==> width == -1
      invariant forall k :: 0 <= k < i ==> |rows[k]| == width
      invariant nonZero == |AllColumns(rows, i)|
    {
      if width < 0 {
        width := |rows[i]|;
      } else if |rows[i]| != width {
        assert |rows[i]| != |rows[0]|;
        return Panic;
      }
      for c := 0 to |rows[i]|
        invariant nonZero == |AllColumns(rows, i)| + |NonZeroColumns(rows[i], c)|
      {
        if rows[i][c] != 0.0 {
          nonZero := nonZero + 1;
        }
      }
    }
    return Ok(nonZero);
  }

  /** The view of every row over one shared backing. No append exceeds the counted
      capacity, the rows tile the backing in order, and each row holds exactly its own
      non-zero entries. A ragged matrix panics. */
  method Sparsify(rows: seq<seq<real>>) returns (r: Checked<seq<SparseRow>>)
    ensures r.Panic? <==> !Rectangular(rows)
    ensures r.Ok? ==> |r.value| == |rows| && TilesBacking(r.value)
    ensures r.Ok? ==> forall i :: 0 <= i < |rows| ==> r.value[i].InBounds() && ViewOf(r.value[i], rows[i])
  {
    var counted := CountNonZero(rows);
    if counted.Panic? {
      return Panic;
    }
    var columns := new int[counted.value];
    var values := new real[counted.value];
    var sparse := AppendRows(rows, columns, values);
    SlicesTile(rows, sparse, columns, values);
    RowsViewBacking(rows, sparse, columns, values);
    return Ok(sparse);
  }

  /** Fills a backing of exactly the counted capacity, one row after another. */
  method AppendRows(rows: seq<seq<real>>, columns: array<int>, values: array<real>) returns (sparse: seq<SparseRow>)
    requires columns.Length == values.Length == |AllColumns(rows, |rows|)|
    modifies columns, values
    ensures |sparse| == |rows|
    ensures columns[..] == AllColumns(rows, |rows|) && values[..] == AllValues(rows, |rows|)
    ensures forall k :: 0 <= k < |rows| ==> sparse[k] == RowSlices(rows, k, columns, values)
  {
    sparse := [];
    var length := 0;
    for i := 0 to |rows|
      invariant |sparse| == i
      invariant length == |AllColumns(rows, i)| <= columns.Length
      invariant columns[..length] == AllColumns(rows, i)
      invariant values[..length] == AllValues(rows, i)
      invariant forall k :: 0 <= k < i ==> sparse[k] == RowSlices(rows, k, columns, values)
    {
      var start := length;
      BackingGrows(rows, i + 1, |rows|);
      length := AppendRow(rows[i], columns, values, length);
      sparse := sparse + [SparseRow(columns, values, start, length)];
    }
    assert columns[..] == columns[..length] && values[..] == values[..length];
  }

  /** The rows share one backing and tile it from its first entry to its last. */
  ghost predicate TilesBacking(sparse: seq<SparseRow>) {
    forall i :: 0 <= i < |sparse| ==>
      && sparse[i].columns == sparse[0].columns && sparse[i].values == sparse[0].values
      && sparse[i].start == (if i == 0 then 0 else sparse[i - 1].end)
      && (i == |sparse| - 1 ==> sparse[i].end == sparse[i].columns.Length)
  }

  lemma SlicesMeet(rows: seq<seq<real>>, i: nat, columns: array<int>, values: array<real>)
    requires i < |rows| && columns.Length == |AllColumns(rows, |rows|)|
    ensures RowSlices(rows, i, columns, values).columns == RowSlices(rows, 0, columns, values).columns
    ensures RowSlices(rows, i, columns, values).values == RowSlices(rows, 0, columns, values).values
    ensures RowSlices(rows, i, columns, values).start == if i == 0 then 0 else RowSlices(rows, i - 1, columns, values).end
    ensures i == |rows| - 1 ==> RowSlices(rows, i, columns, values).end == columns.Length
  {
  }

  lemma SlicesTile(rows: seq<seq<real>>, sparse: seq<SparseRow>, columns: array<int>, values: array<real>)
    requires |sparse| == |rows| && columns.Length == |AllColumns(rows, |rows|)|
    requires forall k :: 0 <= k < |rows| ==> sparse[k] == RowSlices(rows, k, columns, values)
    ensures TilesBacking(sparse)
  {
    forall i | 0 <= i < |sparse|
      ensures sparse[i].columns == sparse[0].columns && sparse[i].values == sparse[0].values
      ensures sparse[i].start == (if i == 0 then 0 else sparse[i - 1].end)
      ensures i == |sparse| - 1 ==> sparse[i].end == sparse[i].columns.Length
    {
      SlicesMeet(rows, i, columns, values);
    }
  }

  lemma RowsViewBacking(rows: seq<seq<real>>, sparse: seq<SparseRow>, columns: array<int>, values: array<real>)
    requires |sparse| == |rows|
    requires columns[..] == AllColumns(rows, |rows|) && values[..] == AllValues(rows, |rows|)
    requires forall k :: 0 <= k < |rows| ==> sparse[k] == RowSlices(rows, k, columns, values)
    ensures forall i :: 0 <= i < |rows| ==> sparse[i].InBounds() && ViewOf(sparse[i], rows[i])
  {
    forall i | 0 <= i < |rows| ensures sparse[i].InBounds() && ViewOf(sparse[i], rows[i]) {
      RowViewsBacking(rows, i, columns, values);
    }
  }

  /** Appends the non-zero entries of one row to the backing, which has room for them. */
  method AppendRow(row: seq<real>, columns: array<int>, values: array<real>, from: nat) returns (length: nat)
    requires from + |NonZeroColumns(row, |row|)| <= columns.Length == values.Length
    modifies columns, values
    ensures length == from + |NonZeroColumns(row, |row|)|
    ensures columns[..length] == old(columns[..from]) + NonZeroColumns(row, |row|)
    ensures values[..length] == old(values[..from]) + NonZeroValues(row, |row|)
  {
    length := from;
    for c := 0 to |row|
      invariant length == from + |NonZeroColumns(row, c)| <= columns.Length
      invariant columns[..length] == old(columns[..from]) + NonZeroColumns(row, c)
      invariant values[..length] == old(values[..from]) + NonZeroValues(row, c)
    {
      if row[c] != 0.0 {
        ColumnsGrow(row, c + 1);
        columns[length] := c;
        values[length] := row[c];
        length := length + 1;
      }
    }
  }

  /** The slices that row `i` gets. */
  ghost function RowSlices(rows: seq<seq<real>>, i: nat, columns: array<int>, values: array<real>): SparseRow
    requires i < |rows|
  {
    SparseRow(columns, values, |AllColumns(rows, i)|, |AllColumns(rows, i + 1)|)
  }

  lemma RowViewsBacking(rows: seq<seq<real>>, i: nat, columns: array<int>, values: array<real>)
    requires i < |rows|
    requires columns[..] == AllColumns(rows, |rows|)
    requires values[..] == AllValues(rows, |rows|)
    ensures var view := RowSlices(rows, i, columns, values); view.InBounds() && ViewOf(view, rows[i])
  {
    RowStretch(rows, i);
    NonZeroEntriesRepresent(rows[i]);
    var view := RowSlices(rows, i, columns, values);
    assert view.InBounds();
    assert view.Columns() == columns[..][view.start..view.end];
    assert view.Values() == values[..][view.start..view.end];
  }

  lemma {:induction false} ColumnsGrow(row: seq<real>, n: nat)
    requires n <= |row|
    ensures |NonZeroColumns(row, n)| <= |NonZeroColumns(row, |row|)|
    decreases |row| - n
  {
    if n < |row| {
      ColumnsGrow(row, n + 1);
    }
  }

  // ---------------------------------------------------------------- the two-pointer product

  /** One side of the walk: `i` points at the first column not below `done`. */
  ghost predicate Pointed(columns: seq<int>, values: seq<real>, row: seq<real>, i: nat, done: nat) {
    && Represents(columns, values, row)
    && i <= |columns|
    && (forall k :: 0 <= k < i ==> columns[k] < done)
    && (forall k :: i <= k < |columns| ==> done <= columns[k])
  }

  /** The sparse inner product is the dense one. */
  method SparseDot(a: SparseRow, b: SparseRow, ghost rowA: seq<real>, ghost rowB: seq<real>)
    returns (dot: real)
    requires a.InBounds() && b.InBounds() && ViewOf(a, rowA) && ViewOf(b, rowB)
    requires |rowA| == |rowB|
    ensures dot == Dot(rowA, rowB)
  {
    dot := WalkColumns(a.Columns(), a.Values(), b.Columns(), b.Values(), rowA, rowB);
  }

  /** The walk stands at columns `i` and `j`; columns below `done` are accounted for. */
  ghost predicate Walked(ca: seq<int>, va: seq<real>, rowA: seq<real>, i: nat,
                         cb: seq<int>, vb: seq<real>, rowB: seq<real>, j: nat, done: nat, dot: real)
    requires |rowA| == |rowB|
  {
    && done <= |rowA| && dot == DotTo(rowA, rowB, done)
    && Pointed(ca, va, rowA, i, done) && Pointed(cb, vb, rowB, j, done)
  }

  lemma PassA(ca: seq<int>, va: seq<real>, rowA: seq<real>, i: nat,
              cb: seq<int>, vb: seq<real>, rowB: seq<real>, j: nat, done: nat, dot: real)
    requires |rowA| == |rowB| && Walked(ca, va, rowA, i, cb, vb, rowB, j, done, dot)
    requires i < |ca| && j < |cb| && ca[i] < cb[j]
    ensures Walked(ca, va, rowA, i + 1, cb, vb, rowB, j, ca[i] + 1, dot)
  {
    OneSideZero(ca, va, rowA, i, cb, vb, rowB, j, done, ca[i]);
    PastColumn(ca, va, rowA, i, done, ca[i]);
    PastColumn(cb, vb, rowB, j, done, ca[i]);
    DotSkipsZeros(rowA, rowB, ca[i], ca[i] + 1);
  }

  lemma PassB(ca: seq<int>, va: seq<real>, rowA: seq<real>, i: nat,
              cb: seq<int>, vb: seq<real>, rowB: seq<real>, j: nat, done: nat, dot: real)
    requires |rowA| == |rowB| && Walked(ca, va, rowA, i, cb, vb, rowB, j, done, dot)
    requires i < |ca| && j < |cb| && cb[j] < ca[i]
    ensures Walked(ca, va, rowA, i, cb, vb, rowB, j + 1, cb[j] + 1, dot)
  {
    OneSideZero(ca, va, rowA, i, cb, vb, rowB, j, done, cb[j]);
    PastColumn(ca, va, rowA, i, done, cb[j]);
    PastColumn(cb, vb, rowB, j, done, cb[j]);
    DotSkipsZeros(rowA, rowB, cb[j], cb[j] + 1);
  }

  lemma PassMatch(ca: seq<int>, va: seq<real>, rowA: seq<real>, i: nat,
                  cb: seq<int>, vb: seq<real>, rowB: seq<real>, j: nat, done: nat, dot: real)
    requires |rowA| == |rowB| && Walked(ca, va, rowA, i, cb, vb, rowB, j, done, dot)
    requires i < |ca| && j < |cb| && ca[i] == cb[j]
    ensures i < |va| && j < |vb|
    ensures Walked(ca, va, rowA, i + 1, cb, vb, rowB, j + 1, ca[i] + 1, dot + va[i] * vb[j])
  {
    OneSideZero(ca, va, rowA, i, cb, vb, rowB, j, done, ca[i]);
    PastColumn(ca, va, rowA, i, done, ca[i]);
    PastColumn(cb, vb, rowB, j, done, ca[i]);
    MatchedColumn(rowA, rowB, ca[i], va[i], vb[j]);
  }

  /** The walk over two rows' slices. */
  method WalkColumns(ca: seq<int>, va: seq<real>, cb: seq<int>, vb: seq<real>,
                     ghost rowA: seq<real>, ghost rowB: seq<real>) returns (dot: real)
    requires Represents(ca, va, rowA) && Represents(cb, vb, rowB) && |rowA| == |rowB|
    ensures dot == Dot(rowA, rowB)
  {
    dot := 0.0;
    var i, j := 0, 0;
    ghost var done: nat := 0;
    while i < |ca| && j < |cb|
      invariant 0 <= i <= |ca| && 0 <= j <= |cb|
      invariant Walked(ca, va, rowA, i, cb, vb, rowB, j, done, dot)
      decreases |ca| + |cb| - i - j
    {
      if ca[i] < cb[j] {
        PassA(ca, va, rowA, i, cb, vb, rowB, j, done, dot);
        done := ca[i] + 1;
        i := i + 1;
      } else if ca[i] > cb[j] {
        PassB(ca, va, rowA, i, cb, vb, rowB, j, done, dot);
        done := cb[j] + 1;
        j := j + 1;
      } else {
        PassMatch(ca, va, rowA, i, cb, vb, rowB, j, done, dot);
        done := ca[i] + 1;
        dot := dot + va[i] * vb[j];
        i := i + 1;
        j := j + 1;
      }
    }
    OneSideZero(ca, va, rowA, i, cb, vb, rowB, j, done, |rowA|);
  }

  lemma MatchedColumn(rowA: seq<real>, rowB: seq<real>, c: nat, x: real, y: real)
    requires c < |rowA| == |rowB| && x == rowA[c] && y == rowB[c]
    ensures DotTo(rowA, rowB, c + 1) == DotTo(rowA, rowB, c) + x * y
  {
  }

  /** A column at or above `done` and below the pointed-at one is not in the list. */
  lemma AbsentIsZero(columns: seq<int>, values: seq<real>, row: seq<real>, i: nat, done: nat, c: nat)
    requires Pointed(columns, values, row, i, done)
    requires done <= c < |row| && (i < |columns| ==> c < columns[i])
    ensures row[c] == 0.0
  {
    if row[c] != 0.0 {
      var k :| 0 <= k < |columns| && columns[k] == c;
      assert false;
    }
  }

  /** Up to the smaller of the two pointed-at columns one row is zero everywhere, so the
      dense product does not change. With one list exhausted this holds up to the width. */
  lemma OneSideZero(ca: seq<int>, va: seq<real>, rowA: seq<real>, i: nat,
                    cb: seq<int>, vb: seq<real>, rowB: seq<real>, j: nat, done: nat, next: nat)
    requires Pointed(ca, va, rowA, i, done) && Pointed(cb, vb, rowB, j, done)
    requires |rowA| == |rowB| && done <= next <= |rowA|
    requires (i < |ca| ==> next <= ca[i]) || (j < |cb| ==> next <= cb[j])
    ensures DotTo(rowA, rowB, next) == DotTo(rowA, rowB, done)
  {
    forall c: nat | done <= c < next ensures rowA[c] == 0.0 || rowB[c] == 0.0 {
      if i < |ca| ==> next <= ca[i] {
        AbsentIsZero(ca, va, rowA, i, done, c);
      } else {
        AbsentIsZero(cb, vb, rowB, j, done, c);
      }
    }
    DotSkipsZeros(rowA, rowB, done, next);
  }

  /** Moving `done` past `next` keeps a pointer to a later column, and moves a pointer to
      `next` itself, whose value is the row's entry there. A column not pointed at is zero. */
  lemma PastColumn(columns: seq<int>, values: seq<real>, row: seq<real>, i: nat, done: nat, next: nat)
    requires Pointed(columns, values, row, i, done) && i < |columns|
    requires done <= next <= columns[i] && next < |row|
    ensures columns[i] > next ==> row[next] == 0.0 && Pointed(columns, values, row, i, next + 1)
    ensures columns[i] == next ==> row[next] == values[i] && Pointed(columns, values, row, i + 1, next + 1)
  {
    if columns[i] > next {
      AbsentIsZero(columns, values, row, i, done, next);
    }
  }
}
