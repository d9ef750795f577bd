/** Writing a block-sparse matrix out as compressed columns: column starts, row numbers and values. */
module CompressedColumns {
  import opened BlockLayout
  import opened SparseBlocks
  import opened SparseBlockAlgebra
  import opened SymmetricProduct
  import opened CompressedViews

  datatype Item = Item(row: nat, value: real)

  ghost predicate NoEmptyBlock(ends: seq<nat>) {
    Monotone(ends) && forall b :: 0 <= b < |ends| ==> Base(ends, b) < ends[b]
  }

  /** With non-empty blocks the order of the offsets is the order of the blocks. */
  lemma BasesGrow(ends: seq<nat>, r: nat, c: nat)
    requires NoEmptyBlock(ends) && r < |ends| && c < |ends|
    ensures Base(ends, r) > Base(ends, c) <==> r > c
    ensures Base(ends, r) < Base(ends, c) <==> r < c
  {
    if r < c {
      BaseMonotone(ends, r + 1, c);
    } else if c < r {
      BaseMonotone(ends, c + 1, r);
    }
  }

  /** What is to be written. In upper mode diagonal blocks are cut off below the diagonal. */
  datatype Source = Source(rowEnds: seq<nat>, colEnds: seq<nat>, cols: BlockColumns, upper: bool)

  ghost predicate Writable(s: Source) {
    && ValidBlocks(s.rowEnds, s.colEnds, s.cols)
    && (s.upper ==> s.rowEnds == s.colEnds && NoEmptyBlock(s.rowEnds))
  }

  // ----- What is written, column by column

  function Height(s: Source, r: nat, c: nat, b: nat): nat {
    if s.upper && Base(s.rowEnds, r) == Base(s.colEnds, c) then b + 1 else Dim(s.rowEnds, r)
  }

  ghost function ItemAt(s: Source, r: nat, c: nat, b: nat, a: nat): Item {
    Item(Base(s.rowEnds, r) + a, BlockEntry(s.cols, r, c, a, b))
  }

  ghost function BlockItems(s: Source, r: nat, c: nat, b: nat, h: nat): seq<Item> {
    seq<Item>(h, a requires 0 <= a => ItemAt(s, r, c, b, a))
  }

  /** Column b of block column c, from the blocks above block row r. */
  ghost function ColumnItems(s: Source, r: nat, c: nat, b: nat): seq<Item> {
    if r == 0 then [] else
    ColumnItems(s, r - 1, c, b) + if HasBlock(s.cols, r - 1, c) then BlockItems(s, r - 1, c, b, Height(s, r - 1, c, b)) else []
  }

  ghost function ColumnOf(s: Source, j: nat): seq<Item> {
    var c := BlockOf(s.colEnds, j);
    ColumnItems(s, |s.rowEnds|, c, if Base(s.colEnds, c) <= j then j - Base(s.colEnds, c) else 0)
  }

  ghost function ItemsBefore(s: Source, j: nat): seq<Item> {
    if j == 0 then [] else ItemsBefore(s, j - 1) + ColumnOf(s, j - 1)
  }

  // ----- What a column says

  /** The entry in row i of the column that the items list. */
  ghost function Stored(items: seq<Item>, i: int): real {
    if items == [] then 0.0 else
    var last := items[|items| - 1];
    Stored(items[..|items| - 1], i) + if last.row == i then last.value else 0.0
  }

  ghost predicate Increasing(items: seq<Item>) {
    forall k, l :: 0 <= k < l < |items| ==> items[k].row < items[l].row
  }

  ghost predicate RowsBelow(items: seq<Item>, bound: int) {
    forall k :: 0 <= k < |items| ==> items[k].row < bound
  }

  lemma {:induction false} StoredAppend(x: seq<Item>, y: seq<Item>, i: int)
    ensures Stored(x + y, i) == Stored(x, i) + Stored(y, i)
  {
    if y == [] {
      assert x + y == x;
    } else {
      StoredAppend(x, y[..|y| - 1], i);
      assert (x + y)[..|x + y| - 1] == x + y[..|y| - 1];
    }
  }

  lemma {:induction false} StoredInBlock(s: Source, r: nat, c: nat, b: nat, h: nat, i: int)
    ensures Stored(BlockItems(s, r, c, b, h), i)
         == if Base(s.rowEnds, r) <= i < Base(s.rowEnds, r) + h then BlockEntry(s.cols, r, c, i - Base(s.rowEnds, r), b) else 0.0
  {
    hide BlockEntry, Base;
    if h > 0 {
      StoredInBlock(s, r, c, b, h - 1, i);
      assert BlockItems(s, r, c, b, h)[..h - 1] == BlockItems(s, r, c, b, h - 1);
    }
  }

  lemma HeightFits(s: Source, r: nat, c: nat, b: nat)
    requires Writable(s) && r < |s.rowEnds| && c < |s.colEnds| && b < Dim(s.colEnds, c)
    ensures Height(s, r, c, b) == if s.upper && r == c then b + 1 else Dim(s.rowEnds, r)
    ensures Height(s, r, c, b) <= Dim(s.rowEnds, r)
  {
    if s.upper {
      hide Monotone, Base;
      BasesGrow(s.rowEnds, r, c);
    }
  }

  ghost predicate RowsFrom(items: seq<Item>, bound: int) {
    forall k :: 0 <= k < |items| ==> items[k].row >= bound
  }

  lemma BlockIncreases(s: Source, r: nat, c: nat, b: nat, h: nat)
    ensures Increasing(BlockItems(s, r, c, b, h)) && RowsFrom(BlockItems(s, r, c, b, h), Base(s.rowEnds, r))
    ensures RowsBelow(BlockItems(s, r, c, b, h), Base(s.rowEnds, r) + h)
  {
    hide Base, BlockEntry;
  }

  lemma AppendIncreases(x: seq<Item>, y: seq<Item>, mid: int, end: int)
    requires Increasing(x) && RowsBelow(x, mid) && Increasing(y) && RowsFrom(y, mid) && RowsBelow(y, end) && mid <= end
    ensures Increasing(x + y) && RowsBelow(x + y, end)
  {
  }

  /** Rows come in ascending order, and all of the blocks above block row r lie above that block. */
  lemma {:induction false} ColumnIncreases(s: Source, r: nat, c: nat, b: nat)
    requires Writable(s) && r <= |s.rowEnds| && c < |s.colEnds| && b < Dim(s.colEnds, c)
    ensures Increasing(ColumnItems(s, r, c, b)) && RowsBelow(ColumnItems(s, r, c, b), Base(s.rowEnds, r))
  {
    if r > 0 {
      ColumnIncreases(s, r - 1, c, b);
      AnotherRow(s, r - 1, c, b);
    }
  }

  lemma AnotherRow(s: Source, r: nat, c: nat, b: nat)
    requires Writable(s) && r < |s.rowEnds| && c < |s.colEnds| && b < Dim(s.colEnds, c)
    requires Increasing(ColumnItems(s, r, c, b)) && RowsBelow(ColumnItems(s, r, c, b), Base(s.rowEnds, r))
    ensures Increasing(ColumnItems(s, r + 1, c, b)) && RowsBelow(ColumnItems(s, r + 1, c, b), Base(s.rowEnds, r + 1))
  {
    hide Height, BlockItems, Increasing;
    var h := Height(s, r, c, b);
    HeightFits(s, r, c, b);
    BaseMonotone(s.rowEnds, r, r + 1);
    BlockIncreases(s, r, c, b, h);
    if HasBlock(s.cols, r, c) {
      AppendIncreases(ColumnItems(s, r, c, b), BlockItems(s, r, c, b, h), Base(s.rowEnds, r), Base(s.rowEnds, r + 1));
    } else {
      assert ColumnItems(s, r + 1, c, b) == ColumnItems(s, r, c, b);
    }
  }

  /** The part of the matrix that is written: in upper mode, not what is below the diagonal of a diagonal block. */
  ghost function Kept(s: Source, i: int, j: int): real {
    if s.upper && i > j && BlockOf(s.rowEnds, i) == BlockOf(s.colEnds, j) then 0.0 else Entry(s.rowEnds, s.colEnds, s.cols, i, j)
  }

  /** Of a matrix that stores its upper triangle of blocks, upper mode writes the upper triangle. */
  lemma KeptIsUpper(s: Source, i: int, j: int)
    requires Writable(s) && s.upper && UpperOnly(s.cols) && 0 <= i < Size(s.rowEnds) && 0 <= j < Size(s.colEnds)
    ensures Kept(s, i, j) == if i > j then 0.0 else Entry(s.rowEnds, s.colEnds, s.cols, i, j)
  {
    hide BlockOf, Size, Base, Dim;
    BlockOfWithin(s.rowEnds, i);
    BlockOfWithin(s.colEnds, j);
    BlockOrder(s.rowEnds, BlockOf(s.colEnds, j), j, BlockOf(s.rowEnds, i), i);
  }

  lemma {:induction false} StoredInColumn(s: Source, r: nat, c: nat, b: nat, ri: nat, a: nat)
    requires Writable(s) && r <= |s.rowEnds| && c < |s.colEnds| && b < Dim(s.colEnds, c) && InSegment(s.rowEnds, ri, a)
    ensures Stored(ColumnItems(s, r, c, b), Base(s.rowEnds, ri) + a)
         == if ri < r && a < Height(s, ri, c, b) then BlockEntry(s.cols, ri, c, a, b) else 0.0
  {
    if r > 0 {
      var i, last := Base(s.rowEnds, ri) + a, r - 1;
      StoredInColumn(s, last, c, b, ri, a);
      HeightFits(s, last, c, b);
      SegmentsApart(s.rowEnds, ri, a, last);
      hide Height, Base, InSegment;
      if HasBlock(s.cols, last, c) {
        StoredInBlock(s, last, c, b, Height(s, last, c, b), i);
        StoredAppend(ColumnItems(s, last, c, b), BlockItems(s, last, c, b, Height(s, last, c, b)), i);
      } else {
        assert ColumnItems(s, r, c, b) == ColumnItems(s, last, c, b);
      }
    }
  }

  lemma EntryPlace(s: Source, r: nat, a: nat, c: nat, b: nat)
    requires Writable(s) && InSegment(s.rowEnds, r, a) && InSegment(s.colEnds, c, b)
    ensures Entry(s.rowEnds, s.colEnds, s.cols, Base(s.rowEnds, r) + a, Base(s.colEnds, c) + b) == BlockEntry(s.cols, r, c, a, b)
  {
    hide Entry, BlockEntry, Base, Dim;
    SegmentWithin(s.rowEnds, r, a);
    SegmentWithin(s.colEnds, c, b);
    EntryInBlock(s.rowEnds, s.colEnds, s.cols, r, c, Base(s.rowEnds, r) + a, Base(s.colEnds, c) + b);
  }

  /** Reading a written column back gives that part of the matrix. */
  lemma ColumnReadsBack(s: Source, i: int, j: int)
    requires Writable(s)
    requires 0 <= i < Size(s.rowEnds) && 0 <= j < Size(s.colEnds)
    ensures Stored(ColumnOf(s, j), i) == Kept(s, i, j)
  {
    hide Height, Base, ColumnItems, ColumnOf, Entry, Size, Stored, Monotone;
    var r, a := Locate(s.rowEnds, i);
    var c, b := Locate(s.colEnds, j);
    EntryPlace(s, r, a, c, b);
    ColumnInBlock(s, c, b);
    HeightFits(s, r, c, b);
    StoredInColumn(s, |s.rowEnds|, c, b, r, a);
  }

  lemma ColumnIsSorted(s: Source, j: int)
    requires Writable(s) && 0 <= j < Size(s.colEnds)
    ensures Increasing(ColumnOf(s, j)) && RowsBelow(ColumnOf(s, j), Size(s.rowEnds))
  {
    var c := BlockOf(s.colEnds, j);
    BlockOfWithin(s.colEnds, j);
    ColumnIncreases(s, |s.rowEnds|, c, j - Base(s.colEnds, c));
  }

  // ----- The arrays

  ghost predicate WrittenRows(Ci: seq<int>, items: seq<Item>) {
    |items| <= |Ci| && forall k :: 0 <= k < |items| ==> Ci[k] == items[k].row
  }

  ghost predicate WrittenValues(Cx: seq<real>, items: seq<Item>) {
    |items| <= |Cx| && forall k :: 0 <= k < |items| ==> Cx[k] == items[k].value
  }

  ghost predicate WrittenStarts(Cp: seq<int>, s: Source, end: nat) {
    end <= |Cp| && forall j: nat :: j < end ==> Cp[j] == |ItemsBefore(s, j)|
  }

  lemma {:induction false} ItemsGrow(s: Source, j: nat, n: nat)
    requires j <= n
    ensures ItemsBefore(s, j) <= ItemsBefore(s, n)
    decreases n
  {
    if j < n {
      ItemsGrow(s, j, n - 1);
    }
  }

  lemma {:induction false} ColumnGrows(s: Source, r: nat, n: nat, c: nat, b: nat)
    requires r <= n
    ensures ColumnItems(s, r, c, b) <= ColumnItems(s, n, c, b)
    decreases n
  {
    if r < n {
      ColumnGrows(s, r, n - 1, c, b);
    }
  }

  lemma ColumnInBlock(s: Source, c: nat, b: nat)
    requires Monotone(s.colEnds) && c < |s.colEnds| && b < Dim(s.colEnds, c)
    ensures ColumnOf(s, Base(s.colEnds, c) + b) == ColumnItems(s, |s.rowEnds|, c, b)
    ensures Base(s.colEnds, c) + b < Size(s.colEnds)
  {
    BlockUnique(s.colEnds, c, Base(s.colEnds, c) + b);
    BaseMonotone(s.colEnds, c + 1, |s.colEnds|);
  }

  /** Column j of the compressed form. */
  ghost function Segment(Ci: seq<int>, Cx: seq<real>, lo: int, hi: int): seq<Item>
    requires 0 <= lo <= hi <= |Ci| && hi <= |Cx| && forall k :: lo <= k < hi ==> Ci[k] >= 0
  {
    seq(hi - lo, k requires 0 <= k < hi - lo => Item(Ci[lo + k], Cx[lo + k]))
  }

  /** The arrays hold columns of strictly ascending rows that read back as the part of the matrix to be written. */
  ghost predicate Compressed(s: Source, Cp: seq<int>, Ci: seq<int>, Cx: seq<real>) {
    && |Cp| > Size(s.colEnds) && Cp[0] == 0
    && forall j: nat :: j < Size(s.colEnds) ==> CompressedColumn(s, Cp, Ci, Cx, j)
  }

  ghost predicate CompressedColumn(s: Source, Cp: seq<int>, Ci: seq<int>, Cx: seq<real>, j: nat) {
    && j + 1 < |Cp| && 0 <= Cp[j] <= Cp[j + 1] <= |Ci| && Cp[j + 1] <= |Cx|
    && (forall k :: Cp[j] <= k < Cp[j + 1] ==> 0 <= Ci[k] < Size(s.rowEnds))
    && (forall k, l :: Cp[j] <= k < l < Cp[j + 1] ==> Ci[k] < Ci[l])
    && forall i :: 0 <= i < Size(s.rowEnds) ==> Stored(Segment(Ci, Cx, Cp[j], Cp[j + 1]), i) == Kept(s, i, j)
  }

  lemma WrittenColumn(s: Source, Cp: seq<int>, Ci: seq<int>, Cx: seq<real>, j: nat)
    requires Writable(s) && j < Size(s.colEnds)
    requires WrittenStarts(Cp, s, Size(s.colEnds) + 1)
    requires WrittenRows(Ci, ItemsBefore(s, Size(s.colEnds))) && WrittenValues(Cx, ItemsBefore(s, Size(s.colEnds)))
    ensures CompressedColumn(s, Cp, Ci, Cx, j)
  {
    var next, n, all := j + 1, Size(s.colEnds), ItemsBefore(s, Size(s.colEnds));
    hide Writable, Size, ColumnOf, Kept, Stored;
    ItemsGrow(s, j, n);
    ItemsGrow(s, next, n);
    ColumnIsSorted(s, j);
    var lo, hi := |ItemsBefore(s, j)|, |ItemsBefore(s, next)|;
    assert ItemsBefore(s, next) == ItemsBefore(s, j) + ColumnOf(s, j);
    assert Cp[j] == lo && Cp[next] == hi;
    forall k | 0 <= k < hi - lo ensures all[lo + k] == ColumnOf(s, j)[k] {
      assert ItemsBefore(s, next)[lo + k] == ColumnOf(s, j)[k];
    }
    forall k | lo <= k < hi ensures Ci[k] == ColumnOf(s, j)[k - lo].row && Cx[k] == ColumnOf(s, j)[k - lo].value {
      assert all[lo + (k - lo)] == ColumnOf(s, j)[k - lo];
    }
    assert Segment(Ci, Cx, lo, hi) == ColumnOf(s, j);
    forall i | 0 <= i < Size(s.rowEnds) ensures Stored(Segment(Ci, Cx, lo, hi), i) == Kept(s, i, j) {
      ColumnReadsBack(s, i, j);
    }
  }

  lemma WrittenIsCompressed(s: Source, Cp: seq<int>, Ci: seq<int>, Cx: seq<real>)
    requires Writable(s)
    requires WrittenStarts(Cp, s, Size(s.colEnds) + 1)
    requires WrittenRows(Ci, ItemsBefore(s, Size(s.colEnds))) && WrittenValues(Cx, ItemsBefore(s, Size(s.colEnds)))
    ensures Compressed(s, Cp, Ci, Cx)
  {
    hide Writable, Size, CompressedColumn, WrittenRows, WrittenValues;
    assert ItemsBefore(s, 0) == [];
    forall j: nat | j < Size(s.colEnds) ensures CompressedColumn(s, Cp, Ci, Cx, j) {
      WrittenColumn(s, Cp, Ci, Cx, j);
    }
  }

  // ----- Writing

  function SourceOf(A: SparseBlockMatrix, upper: bool): Source
    reads A
  {
    Source(A.rowBlockIndices, A.colBlockIndices, A.blockCols, upper)
  }

  /** Room for every item of the matrix. */
  ghost predicate Room(s: Source, length: nat) {
    |ItemsBefore(s, Size(s.colEnds))| <= length
  }

  /** Items up to block row r of column b of block column c. */
  ghost function Progress(s: Source, r: nat, c: nat, b: nat): seq<Item> {
    ItemsBefore(s, Base(s.colEnds, c) + b) + ColumnItems(s, r, c, b)
  }

  lemma ProgressFits(s: Source, r: nat, c: nat, b: nat, length: nat)
    requires Writable(s) && r <= |s.rowEnds| && c < |s.colEnds| && b < Dim(s.colEnds, c) && Room(s, length)
    ensures |Progress(s, r, c, b)| <= length
  {
    hide ColumnOf, ColumnItems, Size, Base;
    ColumnInBlock(s, c, b);
    ColumnGrows(s, r, |s.rowEnds|, c, b);
    ItemsGrow(s, Base(s.colEnds, c) + b + 1, Size(s.colEnds));
  }

  lemma ProgressStarts(s: Source, c: nat, b: nat)
    ensures Progress(s, 0, c, b) == ItemsBefore(s, Base(s.colEnds, c) + b)
  {
  }

  lemma ProgressEnds(s: Source, c: nat, b: nat)
    requires Writable(s) && c < |s.colEnds| && b < Dim(s.colEnds, c)
    ensures Progress(s, |s.rowEnds|, c, b) == ItemsBefore(s, Base(s.colEnds, c) + b + 1)
  {
    ColumnInBlock(s, c, b);
  }

  lemma ProgressBlock(s: Source, r: nat, c: nat, b: nat)
    ensures Progress(s, r + 1, c, b)
         == Progress(s, r, c, b) + if HasBlock(s.cols, r, c) then BlockItems(s, r, c, b, Height(s, r, c, b)) else []
    ensures |BlockItems(s, r, c, b, Height(s, r, c, b))| == Height(s, r, c, b)
  {
    hide Height, ItemsBefore;
  }

  /** Copies the first h entries of column b of a block. */
  method CopyValues(s: Source, r: nat, c: nat, b: nat, h: nat, Cx: array<real>, nz: nat,
                    ghost items: seq<Item>) returns (end: nat)
    requires HasBlock(s.cols, r, c) && nz == |items| && nz + h <= Cx.Length && WrittenValues(Cx[..], items)
    modifies Cx
    ensures end == nz + h && WrittenValues(Cx[..], items + BlockItems(s, r, c, b, h))
  {
    end := nz;
    hide BlockEntry;
    for a := 0 to h
      invariant end == nz + a && WrittenValues(Cx[..], items + BlockItems(s, r, c, b, a))
    {
      EntryPresent(s.cols, r, c, a, b);
      Cx[end] := s.cols[c][r](a, b);
      end := end + 1;
    }
  }

  method CopyBlock(s: Source, r: nat, c: nat, b: nat, h: nat, Ci: array<int>, Cx: array<real>, nz: nat,
                   ghost items: seq<Item>) returns (end: nat)
    requires HasBlock(s.cols, r, c) && nz == |items| && nz + h <= Ci.Length && nz + h <= Cx.Length
    requires WrittenRows(Ci[..], items) && WrittenValues(Cx[..], items)
    modifies Ci, Cx
    ensures end == nz + h
    ensures WrittenRows(Ci[..], items + BlockItems(s, r, c, b, h)) && WrittenValues(Cx[..], items + BlockItems(s, r, c, b, h))
  {
    var rstart := Base(s.rowEnds, r);
    end := nz;
    hide BlockEntry, Base;
    for a := 0 to h
      invariant end == nz + a && rstart == Base(s.rowEnds, r) + a
      invariant WrittenRows(Ci[..], items + BlockItems(s, r, c, b, a))
      invariant WrittenValues(Cx[..], items + BlockItems(s, r, c, b, a))
    {
      EntryPresent(s.cols, r, c, a, b);
      Cx[end] := s.cols[c][r](a, b);
      Ci[end] := rstart;
      rstart := rstart + 1;
      end := end + 1;
    }
  }

  method FillColumn(s: Source, c: nat, b: nat, Ci: array<int>, Cx: array<real>, nz: nat) returns (end: nat)
    requires Writable(s) && c < |s.colEnds| && b < Dim(s.colEnds, c) && Room(s, Ci.Length) && Room(s, Cx.Length)
    requires nz == |Progress(s, 0, c, b)| && WrittenRows(Ci[..], Progress(s, 0, c, b)) && WrittenValues(Cx[..], Progress(s, 0, c, b))
    modifies Ci, Cx
    ensures end == |Progress(s, |s.rowEnds|, c, b)|
    ensures WrittenRows(Ci[..], Progress(s, |s.rowEnds|, c, b)) && WrittenValues(Cx[..], Progress(s, |s.rowEnds|, c, b))
  {
    hide *;
    end := nz;
    for r := 0 to |s.rowEnds|
      invariant end == |Progress(s, r, c, b)|
      invariant WrittenRows(Ci[..], Progress(s, r, c, b)) && WrittenValues(Cx[..], Progress(s, r, c, b))
    {
      ProgressBlock(s, r, c, b);
      ProgressFits(s, r + 1, c, b, Ci.Length);
      ProgressFits(s, r + 1, c, b, Cx.Length);
      if HasBlock(s.cols, r, c) {
        end := CopyBlock(s, r, c, b, Height(s, r, c, b), Ci, Cx, end, Progress(s, r, c, b));
      } else {
        assert Progress(s, r + 1, c, b) == Progress(s, r, c, b);
      }
    }
  }

  method WriteStart(s: Source, Cp: array<int>, j: nat, nz: nat)
    requires j < Cp.Length && WrittenStarts(Cp[..], s, j) && nz == |ItemsBefore(s, j)|
    modifies Cp
    ensures WrittenStarts(Cp[..], s, j + 1) && Cp[j] == nz
  {
    Cp[j] := nz;
    hide ItemsBefore;
  }

  lemma ColumnsOfBlock(s: Source, c: nat)
    requires Writable(s) && c < |s.colEnds|
    ensures Base(s.colEnds, c) + Dim(s.colEnds, c) == Base(s.colEnds, c + 1) <= Size(s.colEnds)
  {
    BaseMonotone(s.colEnds, c, c + 1);
    BaseMonotone(s.colEnds, c + 1, |s.colEnds|);
  }

  lemma NothingWritten(s: Source, Cp: seq<int>, Ci: seq<int>, Cx: seq<real>)
    ensures Base(s.colEnds, 0) == 0 == |ItemsBefore(s, 0)|
    ensures WrittenStarts(Cp, s, 0) && WrittenRows(Ci, ItemsBefore(s, 0)) && WrittenValues(Cx, ItemsBefore(s, 0))
  {
  }

  /** Writes the column starts, the row numbers and the values. */
  method FillCCS(A: SparseBlockMatrix, Cp: array<int>, Ci: array<int>, Cx: array<real>, upper: bool) returns (nz: nat)
    requires Writable(SourceOf(A, upper)) && Cp != Ci
    requires Size(A.colBlockIndices) < Cp.Length && Room(SourceOf(A, upper), Ci.Length) && Room(SourceOf(A, upper), Cx.Length)
    modifies Cp, Ci, Cx
    ensures Compressed(SourceOf(A, upper), Cp[..], Ci[..], Cx[..])
    ensures Filled(SourceOf(A, upper), Cp[..], Ci[..], Cx[..], nz)
  {
    hide *;
    var s := SourceOf(A, upper);
    assert s.colEnds == A.colBlockIndices && s.upper == upper && s.cols == A.blockCols by { SourceParts(A, upper); }
    NothingWritten(s, Cp[..], Ci[..], Cx[..]);
    nz := 0;
    var cp := 0;
    for i := 0 to |s.colEnds|
      invariant cp == Base(s.colEnds, i) && nz == |ItemsBefore(s, cp)| && WrittenStarts(Cp[..], s, cp)
      invariant WrittenRows(Ci[..], ItemsBefore(s, cp)) && WrittenValues(Cx[..], ItemsBefore(s, cp))
    {
      ColumnsOfBlock(s, i);
      for c := 0 to Dim(s.colEnds, i)
        invariant cp == Base(s.colEnds, i) + c && nz == |ItemsBefore(s, cp)| && WrittenStarts(Cp[..], s, cp)
        invariant WrittenRows(Ci[..], ItemsBefore(s, cp)) && WrittenValues(Cx[..], ItemsBefore(s, cp))
      {
        WriteStart(s, Cp, cp, nz);
        ProgressStarts(s, i, c);
        nz := FillColumn(s, i, c, Ci, Cx, nz);
        ProgressEnds(s, i, c);
        cp := cp + 1;
      }
    }
    AllColumns(s);
    WriteStart(s, Cp, cp, nz);
    IsFilled(s, Cp[..], Ci[..], Cx[..], nz);
    WrittenIsCompressed(s, Cp[..], Ci[..], Cx[..]);
  }

  /** What every version writes: nz items in the same order, and where each column starts. */
  ghost predicate Filled(s: Source, Cp: seq<int>, Ci: seq<int>, Cx: seq<real>, nz: nat) {
    var items := ItemsBefore(s, Size(s.colEnds));
    nz == |items| && WrittenStarts(Cp, s, Size(s.colEnds) + 1) && WrittenRows(Ci, items) && WrittenValues(Cx, items)
  }

  lemma IsFilled(s: Source, Cp: seq<int>, Ci: seq<int>, Cx: seq<real>, nz: nat)
    requires nz == |ItemsBefore(s, Size(s.colEnds))| && WrittenStarts(Cp, s, Size(s.colEnds) + 1)
    requires WrittenRows(Ci, ItemsBefore(s, Size(s.colEnds))) && WrittenValues(Cx, ItemsBefore(s, Size(s.colEnds)))
    ensures Filled(s, Cp, Ci, Cx, nz)
  {
  }

  lemma AllColumns(s: Source)
    ensures Base(s.colEnds, |s.colEnds|) == Size(s.colEnds)
  {
  }

  lemma SourceParts(A: SparseBlockMatrix, upper: bool)
    ensures SourceOf(A, upper) == Source(A.rowBlockIndices, A.colBlockIndices, A.blockCols, upper)
  {
  }

  // ----- Values only

  method FillColumnValues(s: Source, c: nat, b: nat, Cx: array<real>, nz: nat) returns (end: nat)
    requires Writable(s) && c < |s.colEnds| && b < Dim(s.colEnds, c) && Room(s, Cx.Length)
    requires nz == |Progress(s, 0, c, b)| && WrittenValues(Cx[..], Progress(s, 0, c, b))
    modifies Cx
    ensures end == |Progress(s, |s.rowEnds|, c, b)| && WrittenValues(Cx[..], Progress(s, |s.rowEnds|, c, b))
  {
    hide *;
    end := nz;
    for r := 0 to |s.rowEnds|
      invariant end == |Progress(s, r, c, b)| && WrittenValues(Cx[..], Progress(s, r, c, b))
    {
      ProgressBlock(s, r, c, b);
      ProgressFits(s, r + 1, c, b, Cx.Length);
      if HasBlock(s.cols, r, c) {
        end := CopyValues(s, r, c, b, Height(s, r, c, b), Cx, end, Progress(s, r, c, b));
      } else {
        assert Progress(s, r + 1, c, b) == Progress(s, r, c, b);
      }
    }
  }

  /** Writes the values alone, in the order FillCCS writes them. */
  method FillCCSValues(A: SparseBlockMatrix, Cx: array<real>, upper: bool) returns (nz: nat)
    requires Writable(SourceOf(A, upper)) && Room(SourceOf(A, upper), Cx.Length)
    modifies Cx
    ensures nz == |ItemsBefore(SourceOf(A, upper), Size(A.colBlockIndices))|
    ensures WrittenValues(Cx[..], ItemsBefore(SourceOf(A, upper), Size(A.colBlockIndices)))
  {
    hide *;
    var s := SourceOf(A, upper);
    SourceParts(A, upper);
    NothingWritten(s, [], [], Cx[..]);
    nz := 0;
    for i := 0 to |s.colEnds|
      invariant nz == |ItemsBefore(s, Base(s.colEnds, i))| && WrittenValues(Cx[..], ItemsBefore(s, Base(s.colEnds, i)))
    {
      ColumnsOfBlock(s, i);
      for c := 0 to Dim(s.colEnds, i)
        invariant nz == |ItemsBefore(s, Base(s.colEnds, i) + c)| && WrittenValues(Cx[..], ItemsBefore(s, Base(s.colEnds, i) + c))
      {
        ProgressStarts(s, i, c);
        nz := FillColumnValues(s, i, c, Cx, nz);
        ProgressEnds(s, i, c);
      }
    }
    AllColumns(s);
  }

  // ----- From a view

  /** The block rows before this one are done when q entries of a view's column are. */
  ghost function RowsDone(column: Column, q: nat): nat {
    if 0 < q <= |column| then column[q - 1].row + 1 else 0
  }

  lemma {:induction false} NoBlocksBetween(s: Source, lo: nat, hi: nat, c: nat, b: nat)
    requires lo <= hi && forall r: nat :: lo <= r < hi ==> !HasBlock(s.cols, r, c)
    ensures ColumnItems(s, lo, c, b) == ColumnItems(s, hi, c, b)
    decreases hi
  {
    hide Height, BlockItems;
    if lo < hi {
      NoBlocksBetween(s, lo, hi - 1, c, b);
    }
  }

  lemma RowNotListed(column: Column, q: nat, k: nat, r: nat)
    requires Ascending(column) && q <= |column| && RowsDone(column, q) <= k < r && (q < |column| ==> r == column[q].row)
    ensures !HasRow(column, k)
  {
    forall at | 0 <= at < |column| ensures column[at].row != k {
    }
  }

  /** A view's column leaves out only rows that have no block. */
  lemma ViewSkips(s: Source, column: Column, q: nat, c: nat, b: nat)
    requires Writable(s) && ColumnView(column, s.cols, c) && q <= |column|
    ensures var r := if q < |column| then column[q].row else |s.rowEnds|;
            RowsDone(column, q) <= r && Progress(s, RowsDone(column, q), c, b) == Progress(s, r, c, b)
    ensures q < |column| ==> HasBlock(s.cols, column[q].row, c) && column[q].row < |s.rowEnds|
  {
    var r := if q < |column| then column[q].row else |s.rowEnds|;
    forall k: nat | RowsDone(column, q) <= k < r ensures !HasBlock(s.cols, k, c) {
      RowNotListed(column, q, k, r);
    }
    NoBlocksBetween(s, RowsDone(column, q), r, c, b);
  }

  method FillViewColumn(s: Source, column: Column, c: nat, b: nat, Ci: array<int>, Cx: array<real>,
                        nz: nat) returns (end: nat)
    requires Writable(s) && c < |s.colEnds| && b < Dim(s.colEnds, c) && Room(s, Ci.Length) && Room(s, Cx.Length)
    requires ColumnView(column, s.cols, c)
    requires nz == |Progress(s, 0, c, b)| && WrittenRows(Ci[..], Progress(s, 0, c, b)) && WrittenValues(Cx[..], Progress(s, 0, c, b))
    modifies Ci, Cx
    ensures end == |Progress(s, |s.rowEnds|, c, b)|
    ensures WrittenRows(Ci[..], Progress(s, |s.rowEnds|, c, b)) && WrittenValues(Cx[..], Progress(s, |s.rowEnds|, c, b))
  {
    hide *;
    end := nz;
    ghost var done := 0;
    NextDone(column, 0);
    for q := 0 to |column|
      invariant done == RowsDone(column, q) && end == |Progress(s, done, c, b)|
      invariant WrittenRows(Ci[..], Progress(s, done, c, b)) && WrittenValues(Cx[..], Progress(s, done, c, b))
    {
      var r := column[q].row;
      ViewSkips(s, column, q, c, b);
      ProgressBlock(s, r, c, b);
      ProgressFits(s, r + 1, c, b, Ci.Length);
      ProgressFits(s, r + 1, c, b, Cx.Length);
      end := CopyBlock(s, r, c, b, Height(s, r, c, b), Ci, Cx, end, Progress(s, r, c, b));
      done := r + 1;
      NextDone(column, q);
    }
    ViewSkips(s, column, |column|, c, b);
  }

  lemma NextDone(column: Column, q: nat)
    ensures RowsDone(column, 0) == 0
    ensures q < |column| ==> RowsDone(column, q + 1) == column[q].row + 1
  {
  }

  lemma ViewColumn(view: seq<Column>, cols: BlockColumns, c: nat)
    requires IsView(view, cols) && c < |cols|
    ensures |view| == |cols| && ColumnView(view[c], cols, c)
  {
  }

  lemma ColumnCount(s: Source)
    requires Writable(s)
    ensures |s.cols| == |s.colEnds|
  {
  }

  /** The version that goes through a view writes what FillCCS writes. */
  method ViewFillCCS(A: SparseBlockMatrix, view: seq<Column>, Cp: array<int>, Ci: array<int>, Cx: array<real>,
                     upper: bool) returns (nz: nat)
    requires Writable(SourceOf(A, upper)) && Cp != Ci && IsView(view, A.blockCols)
    requires Size(A.colBlockIndices) < Cp.Length && Room(SourceOf(A, upper), Ci.Length) && Room(SourceOf(A, upper), Cx.Length)
    modifies Cp, Ci, Cx
    ensures Compressed(SourceOf(A, upper), Cp[..], Ci[..], Cx[..])
    ensures Filled(SourceOf(A, upper), Cp[..], Ci[..], Cx[..], nz)
  {
    hide *;
    var s := SourceOf(A, upper);
    SourceParts(A, upper);
    ColumnCount(s);
    NothingWritten(s, Cp[..], Ci[..], Cx[..]);
    nz := 0;
    var cp := 0;
    for i := 0 to |s.colEnds|
      invariant cp == Base(s.colEnds, i) && nz == |ItemsBefore(s, cp)| && WrittenStarts(Cp[..], s, cp)
      invariant WrittenRows(Ci[..], ItemsBefore(s, cp)) && WrittenValues(Cx[..], ItemsBefore(s, cp))
    {
      ColumnsOfBlock(s, i);
      ViewColumn(view, s.cols, i);
      for c := 0 to Dim(s.colEnds, i)
        invariant cp == Base(s.colEnds, i) + c && nz == |ItemsBefore(s, cp)| && WrittenStarts(Cp[..], s, cp)
        invariant WrittenRows(Ci[..], ItemsBefore(s, cp)) && WrittenValues(Cx[..], ItemsBefore(s, cp))
      {
        WriteStart(s, Cp, cp, nz);
        ProgressStarts(s, i, c);
        nz := FillViewColumn(s, view[i], i, c, Ci, Cx, nz);
        ProgressEnds(s, i, c);
        cp := cp + 1;
      }
    }
    AllColumns(s);
    WriteStart(s, Cp, cp, nz);
    IsFilled(s, Cp[..], Ci[..], Cx[..], nz);
    WrittenIsCompressed(s, Cp[..], Ci[..], Cx[..]);
  }

  method FillViewColumnValues(s: Source, column: Column, c: nat, b: nat, Cx: array<real>, nz: nat) returns (end: nat)
    requires Writable(s) && c < |s.colEnds| && b < Dim(s.colEnds, c) && Room(s, Cx.Length) && ColumnView(column, s.cols, c)
    requires nz == |Progress(s, 0, c, b)| && WrittenValues(Cx[..], Progress(s, 0, c, b))
    modifies Cx
    ensures end == |Progress(s, |s.rowEnds|, c, b)| && WrittenValues(Cx[..], Progress(s, |s.rowEnds|, c, b))
  {
    hide *;
    end := nz;
    ghost var done := 0;
    NextDone(column, 0);
    for q := 0 to |column|
      invariant done == RowsDone(column, q) && end == |Progress(s, done, c, b)|
      invariant WrittenValues(Cx[..], Progress(s, done, c, b))
    {
      var r := column[q].row;
      ViewSkips(s, column, q, c, b);
      ProgressBlock(s, r, c, b);
      ProgressFits(s, r + 1, c, b, Cx.Length);
      end := CopyValues(s, r, c, b, Height(s, r, c, b), Cx, end, Progress(s, r, c, b));
      done := r + 1;
      NextDone(column, q);
    }
    ViewSkips(s, column, |column|, c, b);
  }

  /** The values alone, through a view. The start of a block column is carried along. */
  method ViewFillCCSValues(A: SparseBlockMatrix, view: seq<Column>, Cx: array<real>, upper: bool) returns (nz: nat)
    requires Writable(SourceOf(A, upper)) && IsView(view, A.blockCols) && Room(SourceOf(A, upper), Cx.Length)
    modifies Cx
    ensures nz == |ItemsBefore(SourceOf(A, upper), Size(A.colBlockIndices))|
    ensures WrittenValues(Cx[..], ItemsBefore(SourceOf(A, upper), Size(A.colBlockIndices)))
  {
    hide *;
    var s := SourceOf(A, upper);
    SourceParts(A, upper);
    ColumnCount(s);
    NothingWritten(s, [], [], Cx[..]);
    nz := 0;
    var cstart := 0;
    for i := 0 to |s.colEnds|
      invariant cstart == Base(s.colEnds, i) && nz == |ItemsBefore(s, cstart)| && WrittenValues(Cx[..], ItemsBefore(s, cstart))
    {
      ColumnsOfBlock(s, i);
      ViewColumn(view, s.cols, i);
      EndOfColumn(s, i);
      var csize := s.colEnds[i] - cstart;
      for c := 0 to csize
        invariant nz == |ItemsBefore(s, cstart + c)| && WrittenValues(Cx[..], ItemsBefore(s, cstart + c))
      {
        ProgressStarts(s, i, c);
        nz := FillViewColumnValues(s, view[i], i, c, Cx, nz);
        ProgressEnds(s, i, c);
      }
      cstart := s.colEnds[i];
    }
    AllColumns(s);
  }

  lemma EndOfColumn(s: Source, c: nat)
    requires c < |s.colEnds|
    ensures s.colEnds[c] == Base(s.colEnds, c + 1)
  {
  }

  /** Two fills of the same matrix agree wherever they write. */
  lemma FilledAlike(s: Source, Cp: seq<int>, Ci: seq<int>, Cx: seq<real>, nz: nat, Cp': seq<int>, Ci': seq<int>,
                    Cx': seq<real>, nz': nat)
    requires Filled(s, Cp, Ci, Cx, nz) && Filled(s, Cp', Ci', Cx', nz')
    ensures nz == nz' && Cp[..Size(s.colEnds) + 1] == Cp'[..Size(s.colEnds) + 1]
    ensures Ci[..nz] == Ci'[..nz] && Cx[..nz] == Cx'[..nz]
  {
    hide ItemsBefore, Size;
  }
}
