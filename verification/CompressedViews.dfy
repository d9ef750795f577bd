/** Views that list the blocks of a block-sparse matrix column by column, or row by row, in ascending order. */
module CompressedViews {
  import opened LinearAlgebra
  import opened SparseBlocks

  /** An entry of a view: its row in the view, and the block of the viewed matrix that it points to. */
  datatype RowBlock = RowBlock(row: nat, blockRow: nat, blockCol: nat)

  type Column = seq<RowBlock>

  ghost predicate Ascending(column: Column) {
    forall p, q :: 0 <= p < q < |column| ==> column[p].row < column[q].row
  }

  ghost predicate HasRow(column: Column, row: nat) {
    exists q :: 0 <= q < |column| && column[q].row == row
  }

  /** column lists exactly the blocks of block column c. */
  ghost predicate ColumnView(column: Column, cols: BlockColumns, c: nat) {
    && c < |cols| && Ascending(column)
    && (forall q :: 0 <= q < |column| ==> column[q] == RowBlock(column[q].row, column[q].row, c) && column[q].row in cols[c])
    && (forall r :: r in cols[c] ==> HasRow(column, r))
  }

  ghost predicate IsView(view: seq<Column>, cols: BlockColumns) {
    |view| == |cols| && forall c :: 0 <= c < |cols| ==> ColumnView(view[c], cols, c)
  }

  /** column lists blocks of block row r, each under its block column. */
  ghost predicate RowView(column: Column, cols: BlockColumns, r: nat) {
    && Ascending(column)
    && forall q :: 0 <= q < |column| ==>
        column[q] == RowBlock(column[q].row, r, column[q].row) && column[q].row < |cols| && r in cols[column[q].row]
  }

  ghost predicate IsTransposedView(view: seq<Column>, cols: BlockColumns) {
    forall r :: 0 <= r < |view| ==> RowView(view[r], cols, r)
  }

  /** The view misses none of the blocks. */
  ghost predicate CompleteTransposedView(view: seq<Column>, cols: BlockColumns) {
    forall r, c :: 0 <= r < |view| && 0 <= c < |cols| && r in cols[c] ==> HasRow(view[r], c)
  }

  /** The first entry whose row is at least the given one. */
  method LowerBound(column: Column, row: nat) returns (p: nat)
    requires Ascending(column)
    ensures p <= |column|
    ensures forall q :: 0 <= q < p ==> column[q].row < row
    ensures forall q :: p <= q < |column| ==> column[q].row >= row
  {
    p := 0;
    while p < |column| && column[p].row < row
      invariant p <= |column| && forall q :: 0 <= q < p ==> column[q].row < row
    {
      p := p + 1;
    }
  }

  lemma LowerBoundAt(column: Column, o: nat, p: nat)
    requires Ascending(column) && o < |column| && p <= |column|
    requires forall q :: 0 <= q < p ==> column[q].row < column[o].row
    requires forall q :: p <= q < |column| ==> column[q].row >= column[o].row
    ensures p == o
  {
    var bound := if p < |column| then column[p].row else 0;
    assert column[o].row >= bound;
  }

  /** Moves a scan position forward to the entry with the given row. It never passes the end. */
  method Advance(column: Column, start: nat, row: nat) returns (t: nat)
    requires Ascending(column) && HasRow(column, row) && start < |column|
    requires forall q :: 0 <= q < start ==> column[q].row < row
    ensures start <= t < |column| && column[t].row == row
    ensures forall q :: 0 <= q < t ==> column[q].row < row
  {
    ghost var target :| 0 <= target < |column| && column[target].row == row;
    t := start;
    while column[t].row < row
      invariant start <= t <= target
      invariant forall q :: 0 <= q < t ==> column[q].row < row
      decreases target - t
    {
      t := t + 1;
    }
  }

  // ----- Counting blocks

  ghost function NonZeroBlocks(cols: BlockColumns): nat {
    if cols == [] then 0 else NonZeroBlocks(cols[..|cols| - 1]) + |cols[|cols| - 1]|
  }

  lemma OneMoreColumn(cols: BlockColumns, c: nat)
    requires c < |cols|
    ensures NonZeroBlocks(cols[..c + 1]) == NonZeroBlocks(cols[..c]) + |cols[c]|
  {
    assert cols[..c + 1][..c] == cols[..c];
  }

  /** The block rows before r in one block column. */
  ghost function RowsBefore(col: map<nat, Matrix>, r: nat): set<nat> {
    set k | k in col && k < r
  }

  lemma OneMoreRow(col: map<nat, Matrix>, r: nat)
    ensures |RowsBefore(col, r + 1)| == |RowsBefore(col, r)| + if r in col then 1 else 0
  {
    assert RowsBefore(col, r + 1) == RowsBefore(col, r) + if r in col then {r} else {};
  }

  lemma AllRows(col: map<nat, Matrix>, rows: nat)
    requires forall k :: k in col ==> k < rows
    ensures |RowsBefore(col, rows)| == |col|
  {
    assert RowsBefore(col, rows) == col.Keys;
  }

  // ----- Filling

  /** The entries list the blocks of block column c before row r. */
  ghost predicate ListedBefore(column: Column, cols: BlockColumns, c: nat, r: nat) {
    && c < |cols| && Ascending(column)
    && (forall q :: 0 <= q < |column| ==>
          column[q] == RowBlock(column[q].row, column[q].row, c) && column[q].row in cols[c] && column[q].row < r)
    && forall k: nat :: k < r && k in cols[c] ==> HasRow(column, k)
  }

  lemma ListNext(column: Column, cols: BlockColumns, c: nat, r: nat)
    requires ListedBefore(column, cols, c, r)
    ensures ListedBefore(if r in cols[c] then column + [RowBlock(r, r, c)] else column, cols, c, r + 1)
  {
    var after := if r in cols[c] then column + [RowBlock(r, r, c)] else column;
    RowsKept(column, after);
    if r in cols[c] {
      assert after[|column|].row == r;
    }
  }

  /** One column: its blocks in the order of their rows, and how many there are. */
  method FillColumn(cols: BlockColumns, c: nat, rows: nat) returns (column: Column, count: nat)
    requires c < |cols| && forall k :: k in cols[c] ==> k < rows
    ensures ColumnView(column, cols, c) && count == |cols[c]|
  {
    column, count := [], 0;
    assert RowsBefore(cols[c], 0) == {};
    for r := 0 to rows
      invariant ListedBefore(column, cols, c, r) && count == |RowsBefore(cols[c], r)|
    {
      ListNext(column, cols, c, r);
      OneMoreRow(cols[c], r);
      if r in cols[c] {
        column, count := column + [RowBlock(r, r, c)], count + 1;
      }
    }
    AllRows(cols[c], rows);
  }

  /** Copies the columns of a matrix, in the order of their block rows. */
  method FillSparseBlockMatrixCCS(src: SparseBlockMatrix) returns (view: seq<Column>, numblocks: nat)
    requires src.Valid()
    ensures IsView(view, src.blockCols) && numblocks == NonZeroBlocks(src.blockCols)
  {
    var cols := src.blockCols;
    view, numblocks := [], 0;
    for c := 0 to |cols|
      invariant |view| == c && forall k :: 0 <= k < c ==> ColumnView(view[k], cols, k)
      invariant numblocks == NonZeroBlocks(cols[..c])
    {
      var column, count := FillColumn(cols, c, |src.rowBlockIndices|);
      OneMoreColumn(cols, c);
      view, numblocks := view + [column], numblocks + count;
    }
    assert cols[..|cols|] == cols;
  }

  lemma RowsKept(before: Column, after: Column)
    requires before <= after
    ensures forall k: nat :: HasRow(before, k) ==> HasRow(after, k)
  {
    forall k: nat | HasRow(before, k) ensures HasRow(after, k) {
      var q :| 0 <= q < |before| && before[q].row == k;
      assert after[q].row == k;
    }
  }

  /** Lists every block under its block row; going through the columns in order keeps each list ascending. */
  method FillSparseBlockMatrixCCSTransposed(src: SparseBlockMatrix) returns (view: seq<Column>, numblocks: nat)
    requires src.Valid()
    ensures |view| == |src.rowBlockIndices|
    ensures IsTransposedView(view, src.blockCols) && CompleteTransposedView(view, src.blockCols)
    ensures numblocks == NonZeroBlocks(src.blockCols)
  {
    var cols := src.blockCols;
    view, numblocks := seq(|src.rowBlockIndices|, _ => []), 0;
    for c := 0 to |cols|
      invariant |view| == |src.rowBlockIndices| && ListedUpTo(view, cols, 0, c)
      invariant numblocks == NonZeroBlocks(cols[..c])
    {
      var count;
      view, count := ListColumn(view, cols, c);
      OneMoreColumn(cols, c);
      numblocks := numblocks + count;
    }
    assert cols[..|cols|] == cols;
  }

  /** Appends the blocks of column c to the lists of their rows. */
  method ListColumn(view: seq<Column>, cols: BlockColumns, c: nat) returns (result: seq<Column>, count: nat)
    requires c < |cols| && ListedUpTo(view, cols, 0, c) && forall k :: k in cols[c] ==> k < |view|
    ensures |result| == |view| && ListedUpTo(result, cols, 0, c + 1) && count == |cols[c]|
  {
    result, count := view, 0;
    assert RowsBefore(cols[c], 0) == {};
    for r := 0 to |view|
      invariant |result| == |view| && ListedUpTo(result, cols, r, c) && count == |RowsBefore(cols[c], r)|
    {
      result := ListBlock(result, cols, r, c);
      OneMoreRow(cols[c], r);
      count := if r in cols[c] then count + 1 else count;
    }
    AllRows(cols[c], |view|);
  }

  /** Rows before r are listed up to and including column c, the others before it. */
  ghost predicate ListedUpTo(view: seq<Column>, cols: BlockColumns, r: nat, c: nat) {
    forall k :: 0 <= k < |view| ==> RowListed(view[k], cols, k, if k < r then c + 1 else c)
  }

  ghost predicate RowListed(column: Column, cols: BlockColumns, k: nat, end: nat) {
    && RowView(column, cols, k)
    && (forall q :: 0 <= q < |column| ==> column[q].row < end)
    && forall c :: 0 <= c < end && c < |cols| && k in cols[c] ==> HasRow(column, c)
  }

  method ListBlock(view: seq<Column>, cols: BlockColumns, r: nat, c: nat) returns (result: seq<Column>)
    requires r < |view| && c < |cols| && ListedUpTo(view, cols, r, c)
    ensures |result| == |view| && ListedUpTo(result, cols, r + 1, c)
  {
    assert RowListed(view[r], cols, r, c);
    if r in cols[c] {
      var column := view[r] + [RowBlock(c, r, c)];
      assert column[|view[r]|].row == c;
      RowsKept(view[r], column);
      result := view[r := column];
    } else {
      result := view;
    }
    assert RowListed(result[r], cols, r, c + 1);
    forall k | 0 <= k < |result| ensures RowListed(result[k], cols, k, if k < r + 1 then c + 1 else c) {
      assert k != r ==> RowListed(view[k], cols, k, if k < r then c + 1 else c);
    }
  }
}
