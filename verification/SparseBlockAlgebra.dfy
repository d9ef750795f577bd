/** Sums, transposes and products of block-sparse matrices against the dense matrices they denote. */
module SparseBlockAlgebra {
  import opened LinearAlgebra
  import opened BlockLayout
  import opened SparseBlocks

  /** A pass over all blocks, column by column and by rows within a column, has been past (r', c'). */
  ghost predicate Past(r': nat, c': nat, r: nat, c: nat) {
    c' < c || (c' == c && r' < r)
  }

  // ----- Addition

  ghost predicate AddedUpTo(now: BlockColumns, before: BlockColumns, src: BlockColumns, r: nat, c: nat) {
    && |now| == |before| == |src|
    && (forall r', c' :: 0 <= c' < |now| ==>
          (r' in now[c'] <==> r' in before[c'] || (Past(r', c', r, c) && r' in src[c'])))
    && (forall r', c', a, b :: BlockEntry(now, r', c', a, b)
          == BlockEntry(before, r', c', a, b) + if Past(r', c', r, c) then BlockEntry(src, r', c', a, b) else 0.0)
  }

  /** Adds src to dest, which must own its blocks and have the same layout. */
  method Add(src: SparseBlockMatrix, dest: SparseBlockMatrix) returns (ok: bool)
    requires src.Valid() && dest.Valid()
    modifies dest
    ensures dest.Valid()
    ensures ok <==> dest.hasStorage && src.rowBlockIndices == dest.rowBlockIndices && src.colBlockIndices == dest.colBlockIndices
    ensures !ok ==> dest.blockCols == old(dest.blockCols)
    ensures ok ==> AddedUpTo(dest.blockCols, old(dest.blockCols), old(src.blockCols), 0, |dest.blockCols|)
    ensures ok ==> forall i, j :: dest.AsDense()(i, j) == old(dest.AsDense())(i, j) + old(src.AsDense())(i, j)
  {
    if !dest.hasStorage || src.rowBlockIndices != dest.rowBlockIndices || src.colBlockIndices != dest.colBlockIndices {
      return false;
    }
    ghost var before := dest.blockCols;
    var blocks := src.blockCols;
    for c := 0 to |blocks|
      invariant dest.Valid() && AddedUpTo(dest.blockCols, before, blocks, 0, c)
    {
      for r := 0 to |src.rowBlockIndices|
        invariant dest.Valid() && AddedUpTo(dest.blockCols, before, blocks, r, c)
      {
        AddBlock(dest, r, c, before, blocks);
      }
      NextColumn(dest.blockCols, before, blocks, |src.rowBlockIndices|, c);
    }
    AddedIsSum(dest.rowBlockIndices, dest.colBlockIndices, dest.blockCols, before, blocks);
    return true;
  }

  method AddBlock(dest: SparseBlockMatrix, r: nat, c: nat, ghost before: BlockColumns, src: BlockColumns)
    requires dest.Valid() && r < |dest.rowBlockIndices| && c < |dest.colBlockIndices|
    requires AddedUpTo(dest.blockCols, before, src, r, c)
    modifies dest
    ensures dest.Valid() && AddedUpTo(dest.blockCols, before, src, r + 1, c)
  {
    hide Entry, Dense, AddedUpTo, BlockEntry;
    ghost var mid := dest.blockCols;
    SameColumns(mid, before, src, r, c);
    if r in src[c] {
      var _ := dest.Block(r, c, true);
      dest.AddTo(r, c, src[c][r]);
      BlockAdded(mid, dest.blockCols, before, src, r, c);
    } else {
      BlockAbsent(mid, before, src, r, c);
    }
  }

  lemma SameColumns(now: BlockColumns, before: BlockColumns, src: BlockColumns, r: nat, c: nat)
    requires AddedUpTo(now, before, src, r, c)
    ensures |now| == |before| == |src|
  {
  }

  lemma BlockAdded(mid: BlockColumns, now: BlockColumns, before: BlockColumns, src: BlockColumns, r: nat, c: nat)
    requires AddedUpTo(mid, before, src, r, c) && c < |mid| && r in src[c]
    requires var grown := if r in mid[c] then mid else WithBlock(mid, r, c, Zero());
             now == WithBlock(grown, r, c, PlusMatrix(grown[c][r], src[c][r]))
    ensures AddedUpTo(now, before, src, r + 1, c)
  {
    forall r': nat, c': nat, a, b
      ensures BlockEntry(now, r', c', a, b)
           == BlockEntry(before, r', c', a, b) + if Past(r', c', r + 1, c) then BlockEntry(src, r', c', a, b) else 0.0
    {
      assert BlockEntry(mid, r', c', a, b) == BlockEntry(before, r', c', a, b) + if Past(r', c', r, c) then BlockEntry(src, r', c', a, b) else 0.0;
    }
  }

  lemma BlockAbsent(mid: BlockColumns, before: BlockColumns, src: BlockColumns, r: nat, c: nat)
    requires AddedUpTo(mid, before, src, r, c) && c < |mid| && r !in src[c]
    ensures AddedUpTo(mid, before, src, r + 1, c)
  {
  }

  lemma NextColumn(now: BlockColumns, before: BlockColumns, src: BlockColumns, rows: nat, c: nat)
    requires AddedUpTo(now, before, src, rows, c) && c < |src|
    requires forall r :: r in src[c] ==> r < rows
    ensures AddedUpTo(now, before, src, 0, c + 1)
  {
  }

  lemma AddedIsSum(rowEnds: seq<nat>, colEnds: seq<nat>, now: BlockColumns, before: BlockColumns, src: BlockColumns)
    requires AddedUpTo(now, before, src, 0, |now|)
    ensures forall i, j :: Entry(rowEnds, colEnds, now, i, j) == Entry(rowEnds, colEnds, before, i, j) + Entry(rowEnds, colEnds, src, i, j)
  {
    hide BlockOf, Base;
  }

  // ----- Overwriting blocks

  /** Block (r, c) is now B and the others are as before. */
  ghost predicate Put(before: BlockColumns, now: BlockColumns, r: nat, c: nat, B: Matrix) {
    forall r': nat, c': nat, a, b ::
      BlockEntry(now, r', c', a, b) == if (r', c') == (r, c) then B(a, b) else BlockEntry(before, r', c', a, b)
  }

  /** Overwriting a block, which is created if need be, changes that block and no other. */
  method PutBlock(dest: SparseBlockMatrix, r: nat, c: nat, B: Matrix)
    requires dest.Valid() && r < |dest.rowBlockIndices| && c < |dest.colBlockIndices|
    modifies dest
    ensures dest.Valid()
    ensures Put(old(dest.blockCols), dest.blockCols, r, c, B)
  {
    var _ := dest.Block(r, c, true);
    dest.SetBlock(r, c, B);
  }

  // ----- Transposition

  predicate HasBlock(cols: BlockColumns, r: nat, c: nat) {
    c < |cols| && r in cols[c]
  }

  /** The blocks of src a pass has been past are in now, transposed; all else is as in before. */
  ghost predicate TransposedUpTo(now: BlockColumns, before: BlockColumns, src: BlockColumns, r: nat, c: nat) {
    forall r': nat, c': nat, a, b ::
      BlockEntry(now, c', r', a, b) ==
      if HasBlock(src, r', c') && Past(r', c', r, c) then BlockEntry(src, r', c', b, a) else BlockEntry(before, c', r', a, b)
  }

  /**
   Writes the transpose of src into dest, block by block. Blocks of dest for which src has no counterpart
   stay as they are, so dest becomes the transpose just when those are zero.
   */
  method TransposeInto(src: SparseBlockMatrix, dest: SparseBlockMatrix) returns (ok: bool)
    requires src.Valid() && dest.Valid() && src != dest
    modifies dest
    ensures dest.Valid()
    ensures ok <==> dest.hasStorage && src.rowBlockIndices == dest.colBlockIndices && src.colBlockIndices == dest.rowBlockIndices
    ensures !ok ==> dest.blockCols == old(dest.blockCols)
    ensures ok ==> TransposedUpTo(dest.blockCols, old(dest.blockCols), src.blockCols, 0, |src.blockCols|)
    ensures ok ==> forall i, j :: 0 <= i < Size(src.rowBlockIndices) && 0 <= j < Size(src.colBlockIndices) ==>
      dest.AsDense()(j, i) == if Covered(src, i, j) then src.AsDense()(i, j) else old(dest.AsDense())(j, i)
  {
    if !dest.hasStorage || src.rowBlockIndices != dest.colBlockIndices || src.colBlockIndices != dest.rowBlockIndices {
      return false;
    }
    ghost var before := dest.blockCols;
    hide TransposedUpTo;
    StartTransposed(before, src.blockCols);
    for i := 0 to |src.blockCols|
      invariant dest.Valid() && TransposedUpTo(dest.blockCols, before, src.blockCols, 0, i)
    {
      for r := 0 to |src.rowBlockIndices|
        invariant dest.Valid() && TransposedUpTo(dest.blockCols, before, src.blockCols, r, i)
      {
        TransposeBlock(dest, src.blockCols, r, i, before);
      }
      NextTransposed(dest.blockCols, before, src.blockCols, |src.rowBlockIndices|, i);
    }
    forall i, j | 0 <= i < Size(src.rowBlockIndices) && 0 <= j < Size(src.colBlockIndices)
      ensures dest.AsDense()(j, i) ==
              if Covered(src, i, j) then src.AsDense()(i, j) else Entry(dest.rowBlockIndices, dest.colBlockIndices, before, j, i)
    {
      TransposedEntry(src.rowBlockIndices, src.colBlockIndices, dest.blockCols, before, src.blockCols, i, j);
    }
    return true;
  }

  /** Entry (i, j) lies in a block that matrix has. */
  ghost predicate Covered(matrix: SparseBlockMatrix, i: int, j: int)
    reads matrix
  {
    HasBlock(matrix.blockCols, BlockOf(matrix.rowBlockIndices, i), BlockOf(matrix.colBlockIndices, j))
  }

  lemma StartTransposed(before: BlockColumns, src: BlockColumns)
    ensures TransposedUpTo(before, before, src, 0, 0)
  {
  }

  lemma NextTransposed(now: BlockColumns, before: BlockColumns, src: BlockColumns, rows: nat, c: nat)
    requires TransposedUpTo(now, before, src, rows, c) && c < |src|
    requires forall r :: r in src[c] ==> r < rows
    ensures TransposedUpTo(now, before, src, 0, c + 1)
  {
    hide BlockEntry;
  }

  method TransposeBlock(dest: SparseBlockMatrix, src: BlockColumns, r: nat, c: nat, ghost before: BlockColumns)
    requires dest.Valid() && r < |dest.colBlockIndices| && c < |dest.rowBlockIndices| && c < |src|
    requires TransposedUpTo(dest.blockCols, before, src, r, c)
    modifies dest
    ensures dest.Valid() && TransposedUpTo(dest.blockCols, before, src, r + 1, c)
  {
    ghost var mid := dest.blockCols;
    if r in src[c] {
      PutBlock(dest, c, r, Transpose(src[c][r]));
    }
    BlockTransposed(dest.blockCols, mid, before, src, r, c);
  }

  lemma BlockTransposed(now: BlockColumns, mid: BlockColumns, before: BlockColumns, src: BlockColumns, r: nat, c: nat)
    requires TransposedUpTo(mid, before, src, r, c) && c < |src|
    requires if r in src[c] then Put(mid, now, c, r, Transpose(src[c][r])) else now == mid
    ensures TransposedUpTo(now, before, src, r + 1, c)
  {
    if r in src[c] {
      forall a, b ensures BlockEntry(src, r, c, b, a) == Transpose(src[c][r])(a, b) {
        EntryPresent(src, r, c, b, a);
      }
    }
    hide BlockEntry;
  }

  lemma TransposedEntry(rowEnds: seq<nat>, colEnds: seq<nat>, now: BlockColumns, before: BlockColumns,
                        src: BlockColumns, i: int, j: int)
    requires ValidBlocks(rowEnds, colEnds, src) && 0 <= i < Size(rowEnds) && 0 <= j < Size(colEnds)
    requires TransposedUpTo(now, before, src, 0, |src|)
    ensures Entry(colEnds, rowEnds, now, j, i) ==
            if HasBlock(src, BlockOf(rowEnds, i), BlockOf(colEnds, j)) then Entry(rowEnds, colEnds, src, i, j)
            else Entry(colEnds, rowEnds, before, j, i)
  {
    BlockOfWithin(rowEnds, i);
    BlockOfWithin(colEnds, j);
    hide BlockOf, BlockEntry, Base;
  }

  /** After TransposeInto: the result is the transpose exactly if dest was zero outside the blocks of src. */
  lemma IsTransposeIff(rowEnds: seq<nat>, colEnds: seq<nat>, now: BlockColumns, before: BlockColumns, src: BlockColumns)
    requires ValidBlocks(rowEnds, colEnds, src) && TransposedUpTo(now, before, src, 0, |src|)
    ensures (forall i, j :: 0 <= i < Size(rowEnds) && 0 <= j < Size(colEnds) ==>
              Entry(colEnds, rowEnds, now, j, i) == Entry(rowEnds, colEnds, src, i, j))
       <==> (forall i, j :: 0 <= i < Size(rowEnds) && 0 <= j < Size(colEnds) ==>
              HasBlock(src, BlockOf(rowEnds, i), BlockOf(colEnds, j)) || Entry(colEnds, rowEnds, before, j, i) == 0.0)
  {
    forall i, j | 0 <= i < Size(rowEnds) && 0 <= j < Size(colEnds)
      ensures Entry(colEnds, rowEnds, now, j, i) == Entry(rowEnds, colEnds, src, i, j) <==>
              HasBlock(src, BlockOf(rowEnds, i), BlockOf(colEnds, j)) || Entry(colEnds, rowEnds, before, j, i) == 0.0
    {
      TransposedEntry(rowEnds, colEnds, now, before, src, i, j);
      AbsentIsZero(rowEnds, colEnds, src, i, j);
    }
  }

  lemma AbsentIsZero(rowEnds: seq<nat>, colEnds: seq<nat>, src: BlockColumns, i: int, j: int)
    ensures !HasBlock(src, BlockOf(rowEnds, i), BlockOf(colEnds, j)) ==> Entry(rowEnds, colEnds, src, i, j) == 0.0
  {
  }
}
