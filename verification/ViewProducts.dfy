/** Products of block-sparse matrices with vectors, accumulated block by block. */
module ViewProducts {
  import opened Sums
  import opened LinearAlgebra
  import opened BlockLayout
  import opened SparseBlocks
  import opened CompressedViews

  /** The terms of entry j of M^T x. */
  ghost function ColumnTerms(rowEnds: seq<nat>, colEnds: seq<nat>, cols: BlockColumns, j: int, x: Vector): Vector {
    Terms(Transpose(Dense(rowEnds, colEnds, cols)), j, x)
  }

  /** What block (r, c) adds to entry t of segment c of M^T x. */
  ghost function BlockShare(rowEnds: seq<nat>, cols: BlockColumns, r: nat, c: nat, x: Vector): Vector {
    if c < |cols| && r in cols[c] then MatVec(Dim(rowEnds, r), Transpose(cols[c][r]), FromOffset(x, Base(rowEnds, r)))
    else i => 0.0
  }

  lemma ColumnPart(rowEnds: seq<nat>, colEnds: seq<nat>, cols: BlockColumns, r: nat, c: nat, t: int, x: Vector)
    requires ValidBlocks(rowEnds, colEnds, cols) && r < |rowEnds| && c < |colEnds| && 0 <= t < Dim(colEnds, c)
    ensures var f := ColumnTerms(rowEnds, colEnds, cols, Base(colEnds, c) + t, x);
            Sum(0, Base(rowEnds, r + 1), f) == Sum(0, Base(rowEnds, r), f) + BlockShare(rowEnds, cols, r, c, x)(t)
  {
    hide *;
    ValidParts(rowEnds, colEnds, cols);
    var f, g := ColumnTerms(rowEnds, colEnds, cols, Base(colEnds, c) + t, x), ShareTerms(rowEnds, cols, r, c, t, x);
    forall k | 0 <= k < Dim(rowEnds, r) ensures g(k) == f(Base(rowEnds, r) + k) {
      ColumnTerm(rowEnds, colEnds, cols, r, c, t, x, k);
    }
    SumOfBlock(rowEnds, r, f, g);
    ShareSum(rowEnds, cols, r, c, t, x);
  }

  lemma ValidParts(rowEnds: seq<nat>, colEnds: seq<nat>, cols: BlockColumns)
    requires ValidBlocks(rowEnds, colEnds, cols)
    ensures Monotone(rowEnds) && Monotone(colEnds) && |cols| == |colEnds|
  {
  }

  ghost function ShareTerms(rowEnds: seq<nat>, cols: BlockColumns, r: nat, c: nat, t: int, x: Vector): Vector {
    k => BlockEntry(cols, r, c, k, t) * x(Base(rowEnds, r) + k)
  }

  lemma ColumnTerm(rowEnds: seq<nat>, colEnds: seq<nat>, cols: BlockColumns, r: nat, c: nat, t: int, x: Vector, k: int)
    requires ValidBlocks(rowEnds, colEnds, cols) && r < |rowEnds| && c < |colEnds|
    requires 0 <= t < Dim(colEnds, c) && 0 <= k < Dim(rowEnds, r)
    ensures ShareTerms(rowEnds, cols, r, c, t, x)(k)
         == ColumnTerms(rowEnds, colEnds, cols, Base(colEnds, c) + t, x)(Base(rowEnds, r) + k)
  {
    InnerWithin(rowEnds, r, k);
    InnerWithin(colEnds, c, t);
    hide BlockEntry, Entry, Base, Dim, Within;
    EntryInBlock(rowEnds, colEnds, cols, r, c, Base(rowEnds, r) + k, Base(colEnds, c) + t);
  }

  lemma InnerWithin(ends: seq<nat>, b: nat, t: int)
    requires b < |ends| && 0 <= t < Dim(ends, b)
    ensures Within(ends, b, Base(ends, b) + t)
  {
  }

  lemma ShareSum(rowEnds: seq<nat>, cols: BlockColumns, r: nat, c: nat, t: int, x: Vector)
    ensures Sum(0, Dim(rowEnds, r), ShareTerms(rowEnds, cols, r, c, t, x)) == BlockShare(rowEnds, cols, r, c, x)(t)
  {
    hide Base, Dim;
    var n, y := Dim(rowEnds, r), FromOffset(x, Base(rowEnds, r));
    if c < |cols| && r in cols[c] {
      var Bt := Transpose(cols[c][r]);
      forall k ensures ShareTerms(rowEnds, cols, r, c, t, x)(k) == Terms(Bt, t, y)(k) {
        assert BlockEntry(cols, r, c, k, t) == Bt(t, k);
      }
      SumCong(0, n, ShareTerms(rowEnds, cols, r, c, t, x), Terms(Bt, t, y));
    } else {
      forall k ensures ShareTerms(rowEnds, cols, r, c, t, x)(k) == 0.0 {
        assert BlockEntry(cols, r, c, k, t) == 0.0;
      }
      SumZero(0, n, ShareTerms(rowEnds, cols, r, c, t, x));
    }
  }

  lemma {:induction false} SkipAbsent(rowEnds: seq<nat>, colEnds: seq<nat>, cols: BlockColumns, r: nat, end: nat,
                                      c: nat, t: int, x: Vector)
    requires ValidBlocks(rowEnds, colEnds, cols) && r <= end <= |rowEnds| && c < |colEnds| && 0 <= t < Dim(colEnds, c)
    requires forall k :: r <= k < end ==> k !in cols[c]
    ensures var f := ColumnTerms(rowEnds, colEnds, cols, Base(colEnds, c) + t, x);
            Sum(0, Base(rowEnds, end), f) == Sum(0, Base(rowEnds, r), f)
    decreases end - r
  {
    if r < end {
      ColumnPart(rowEnds, colEnds, cols, r, c, t, x);
      SkipAbsent(rowEnds, colEnds, cols, r + 1, end, c, t, x);
    }
  }

  /** Segment c of dest has received the rows before u, the segments before it all rows, the others none. */
  ghost predicate Accumulated(rowEnds: seq<nat>, colEnds: seq<nat>, cols: BlockColumns, x: Vector,
                              before: seq<real>, after: seq<real>, offset: nat, u: nat, c: nat)
  {
    && |before| == |after|
    && (forall p :: 0 <= p < |after| && !(offset <= p < offset + Size(colEnds)) ==> after[p] == before[p])
    && forall b: nat, t: nat :: InSegment(colEnds, b, t) ==>
        Gained(rowEnds, colEnds, cols, x, before, after, offset, b, t, if b < c then |rowEnds| else if b == c then u else 0)
  }

  ghost predicate Gained(rowEnds: seq<nat>, colEnds: seq<nat>, cols: BlockColumns, x: Vector,
                         before: seq<real>, after: seq<real>, offset: nat, b: nat, t: int, u: nat)
  {
    var p := offset + Base(colEnds, b) + t;
    0 <= p < |before| && p < |after|
    && after[p] == before[p] + Sum(0, Base(rowEnds, u), ColumnTerms(rowEnds, colEnds, cols, Base(colEnds, b) + t, x))
  }

  /** The first row after entry q of a column, or zero before the first entry. */
  ghost function After(column: Column, q: nat): nat {
    if 0 < q <= |column| then column[q - 1].row + 1 else 0
  }

  lemma SkipRows(rowEnds: seq<nat>, colEnds: seq<nat>, cols: BlockColumns, x: Vector,
                 before: seq<real>, after: seq<real>, offset: nat, u: nat, u': nat, c: nat)
    requires ValidBlocks(rowEnds, colEnds, cols) && c < |colEnds| && u <= u' <= |rowEnds|
    requires Accumulated(rowEnds, colEnds, cols, x, before, after, offset, u, c)
    requires forall k :: u <= k < u' ==> k !in cols[c]
    ensures Accumulated(rowEnds, colEnds, cols, x, before, after, offset, u', c)
  {
    forall b: nat, t: nat | InSegment(colEnds, b, t)
      ensures Gained(rowEnds, colEnds, cols, x, before, after, offset, b, t, if b < c then |rowEnds| else if b == c then u' else 0)
    {
      hide Dim, Base, ColumnTerms, ValidBlocks;
      assert Gained(rowEnds, colEnds, cols, x, before, after, offset, b, t, if b < c then |rowEnds| else if b == c then u else 0);
      if b == c {
        SkipAbsent(rowEnds, colEnds, cols, u, u', c, t, x);
      }
    }
  }

  lemma AddBlockShare(rowEnds: seq<nat>, colEnds: seq<nat>, cols: BlockColumns, x: Vector,
                      before: seq<real>, mid: seq<real>, after: seq<real>, offset: nat, r: nat, c: nat)
    requires ValidBlocks(rowEnds, colEnds, cols) && c < |colEnds| && r < |rowEnds|
    requires Accumulated(rowEnds, colEnds, cols, x, before, mid, offset, r, c) && |mid| == |after|
    requires offset + Size(colEnds) <= |mid|
    requires forall p :: 0 <= p < |after| ==>
      after[p] == mid[p] + if Within(colEnds, c, p - offset) then BlockShare(rowEnds, cols, r, c, x)(p - offset - Base(colEnds, c)) else 0.0
    ensures Accumulated(rowEnds, colEnds, cols, x, before, after, offset, r + 1, c)
  {
    ValidParts(rowEnds, colEnds, cols);
    SegmentInside(colEnds, c);
    forall b: nat, t: nat | InSegment(colEnds, b, t)
      ensures Gained(rowEnds, colEnds, cols, x, before, after, offset, b, t, if b < c then |rowEnds| else if b == c then r + 1 else 0)
    {
      InnerWithin(colEnds, b, t);
      OtherSegment(colEnds, b, t, c);
      hide Dim, Base, Within, BlockShare, ColumnTerms, ValidBlocks;
      assert Gained(rowEnds, colEnds, cols, x, before, mid, offset, b, t, if b < c then |rowEnds| else if b == c then r else 0);
      ColumnPart(rowEnds, colEnds, cols, r, b, t, x);
    }
  }

  lemma SegmentInside(ends: seq<nat>, b: nat)
    requires Monotone(ends) && b < |ends|
    ensures forall p :: Within(ends, b, p) ==> 0 <= p < Size(ends)
  {
    BaseMonotone(ends, b + 1, |ends|);
  }

  lemma OtherSegment(ends: seq<nat>, b: nat, t: int, c: nat)
    requires Monotone(ends) && b < |ends| && c < |ends| && 0 <= t < Dim(ends, b)
    ensures Within(ends, c, Base(ends, b) + t) <==> b == c
  {
    InnerWithin(ends, b, t);
    BlockUnique(ends, b, Base(ends, b) + t);
    if Within(ends, c, Base(ends, b) + t) {
      BlockUnique(ends, c, Base(ends, b) + t);
    }
  }

  /** dest += M^T x for the matrix behind the view; dest starts at an offset into a longer array. */
  method RightMultiply(rowEnds: seq<nat>, colEnds: seq<nat>, cols: BlockColumns, view: seq<Column>, x: Vector,
                       dest: array<real>, offset: nat)
    requires ValidBlocks(rowEnds, colEnds, cols) && IsView(view, cols) && offset + Size(colEnds) <= dest.Length
    modifies dest
    ensures forall p :: 0 <= p < dest.Length && !(offset <= p < offset + Size(colEnds)) ==> dest[p] == old(dest[p])
    ensures forall k :: 0 <= k < Size(colEnds) ==>
      dest[offset + k] == old(dest[offset + k]) + MatVec(Size(rowEnds), Transpose(Dense(rowEnds, colEnds, cols)), x)(k)
  {
    ghost var before := dest[..];
    AccumulatedNothing(rowEnds, colEnds, cols, x, before, offset);
    for c := 0 to |view|
      invariant Accumulated(rowEnds, colEnds, cols, x, before, dest[..], offset, 0, c)
    {
      MultiplyColumn(rowEnds, colEnds, cols, view[c], x, dest, offset, c, before);
    }
    forall k | 0 <= k < Size(colEnds)
      ensures dest[offset + k] == before[offset + k] + MatVec(Size(rowEnds), Transpose(Dense(rowEnds, colEnds, cols)), x)(k)
    {
      AccumulatedAll(rowEnds, colEnds, cols, x, before, dest[..], offset, k);
    }
  }

  /** dest += M^T x, straight from the block columns. */
  method MultiplyTransposed(matrix: SparseBlockMatrix, x: Vector, dest: array<real>)
    requires matrix.Valid() && dest.Length == Size(matrix.colBlockIndices)
    modifies dest
    ensures forall k :: 0 <= k < dest.Length ==>
      dest[k] == old(dest[k]) + MatVec(Size(matrix.rowBlockIndices), Transpose(matrix.AsDense()), x)(k)
  {
    var rowEnds, colEnds, cols := matrix.rowBlockIndices, matrix.colBlockIndices, matrix.blockCols;
    ghost var before := dest[..];
    AccumulatedNothing(rowEnds, colEnds, cols, x, before, 0);
    for c := 0 to |cols|
      invariant Accumulated(rowEnds, colEnds, cols, x, before, dest[..], 0, 0, c)
    {
      MultiplyMapColumn(rowEnds, colEnds, cols, x, dest, c, before);
    }
    forall k | 0 <= k < dest.Length
      ensures dest[k] == before[k] + MatVec(Size(rowEnds), Transpose(Dense(rowEnds, colEnds, cols)), x)(k)
    {
      AccumulatedAll(rowEnds, colEnds, cols, x, before, dest[..], 0, k);
    }
  }

  method MultiplyMapColumn(rowEnds: seq<nat>, colEnds: seq<nat>, cols: BlockColumns, x: Vector, dest: array<real>, c: nat,
                           ghost before: seq<real>)
    requires ValidBlocks(rowEnds, colEnds, cols) && dest.Length == Size(colEnds)
    requires c < |colEnds| && Accumulated(rowEnds, colEnds, cols, x, before, dest[..], 0, 0, c)
    modifies dest
    ensures Accumulated(rowEnds, colEnds, cols, x, before, dest[..], 0, 0, c + 1)
  {
    hide Accumulated, Base, Dim, Size;
    for r := 0 to |rowEnds|
      invariant Accumulated(rowEnds, colEnds, cols, x, before, dest[..], 0, r, c)
    {
      if r in cols[c] {
        MultiplyBlock(rowEnds, colEnds, cols, r, x, dest, 0, c, before);
      } else {
        SkipRows(rowEnds, colEnds, cols, x, before, dest[..], 0, r, r + 1, c);
      }
    }
    NextSegment(rowEnds, colEnds, cols, x, before, dest[..], 0, c);
  }

  lemma AccumulatedNothing(rowEnds: seq<nat>, colEnds: seq<nat>, cols: BlockColumns, x: Vector, before: seq<real>,
                           offset: nat)
    requires ValidBlocks(rowEnds, colEnds, cols) && offset + Size(colEnds) <= |before|
    ensures Accumulated(rowEnds, colEnds, cols, x, before, before, offset, 0, 0)
  {
    ValidParts(rowEnds, colEnds, cols);
    forall b: nat, t: nat | InSegment(colEnds, b, t)
      ensures Gained(rowEnds, colEnds, cols, x, before, before, offset, b, t, 0)
    {
      InnerWithin(colEnds, b, t);
      SegmentInside(colEnds, b);
      hide ColumnTerms;
      assert Base(rowEnds, 0) == 0;
    }
  }

  lemma AccumulatedAll(rowEnds: seq<nat>, colEnds: seq<nat>, cols: BlockColumns, x: Vector,
                       before: seq<real>, after: seq<real>, offset: nat, k: int)
    requires ValidBlocks(rowEnds, colEnds, cols) && 0 <= k < Size(colEnds)
    requires Accumulated(rowEnds, colEnds, cols, x, before, after, offset, 0, |colEnds|)
    ensures offset + k < |after| && offset + k < |before|
    ensures after[offset + k] == before[offset + k] + MatVec(Size(rowEnds), Transpose(Dense(rowEnds, colEnds, cols)), x)(k)
  {
    ValidParts(rowEnds, colEnds, cols);
    var b := BlockOf(colEnds, k);
    BlockOfWithin(colEnds, k);
    hide BlockOf, Dense, ValidBlocks;
    assert InSegment(colEnds, b, k - Base(colEnds, b));
    assert Gained(rowEnds, colEnds, cols, x, before, after, offset, b, k - Base(colEnds, b), |rowEnds|);
  }

  method MultiplyColumn(rowEnds: seq<nat>, colEnds: seq<nat>, cols: BlockColumns, column: Column, x: Vector,
                        dest: array<real>, offset: nat, c: nat, ghost before: seq<real>)
    requires ValidBlocks(rowEnds, colEnds, cols) && ColumnView(column, cols, c) && offset + Size(colEnds) <= dest.Length
    requires c < |colEnds| && Accumulated(rowEnds, colEnds, cols, x, before, dest[..], offset, 0, c)
    modifies dest
    ensures Accumulated(rowEnds, colEnds, cols, x, before, dest[..], offset, 0, c + 1)
  {
    hide Accumulated, Base, Dim;
    assert After(column, 0) == 0;
    for q := 0 to |column|
      invariant Accumulated(rowEnds, colEnds, cols, x, before, dest[..], offset, After(column, q), c)
    {
      RowsBetween(column, cols, c, q);
      assert column[q].row in cols[c] && column[q].row < |rowEnds|;
      SkipRows(rowEnds, colEnds, cols, x, before, dest[..], offset, After(column, q), column[q].row, c);
      MultiplyBlock(rowEnds, colEnds, cols, column[q].row, x, dest, offset, c, before);
    }
    RowsBetween(column, cols, c, |column|);
    SkipRows(rowEnds, colEnds, cols, x, before, dest[..], offset, After(column, |column|), |rowEnds|, c);
    NextSegment(rowEnds, colEnds, cols, x, before, dest[..], offset, c);
  }

  lemma NextSegment(rowEnds: seq<nat>, colEnds: seq<nat>, cols: BlockColumns, x: Vector,
                    before: seq<real>, after: seq<real>, offset: nat, c: nat)
    requires Accumulated(rowEnds, colEnds, cols, x, before, after, offset, |rowEnds|, c)
    ensures Accumulated(rowEnds, colEnds, cols, x, before, after, offset, 0, c + 1)
  {
    hide Gained;
    forall b: nat, t: nat | InSegment(colEnds, b, t)
      ensures Gained(rowEnds, colEnds, cols, x, before, after, offset, b, t, if b < c + 1 then |rowEnds| else 0)
    {
      assert Gained(rowEnds, colEnds, cols, x, before, after, offset, b, t, if b < c then |rowEnds| else if b == c then |rowEnds| else 0);
    }
  }

  /** Block rows between two entries of a column, or after the last one, are absent. */
  lemma RowsBetween(column: Column, cols: BlockColumns, c: nat, q: nat)
    requires ColumnView(column, cols, c) && q <= |column|
    ensures forall r :: After(column, q) <= r && (q < |column| ==> r < column[q].row) ==> r !in cols[c]
    ensures q < |column| ==> After(column, q) <= column[q].row
  {
    forall r | r in cols[c] ensures r < After(column, q) || (q < |column| && column[q].row <= r) {
      var k :| 0 <= k < |column| && column[k].row == r;
      if k < q {
        assert column[k].row <= column[q - 1].row;
      } else {
        assert column[q].row <= column[k].row;
      }
    }
  }

  method MultiplyBlock(rowEnds: seq<nat>, colEnds: seq<nat>, cols: BlockColumns, r: nat, x: Vector,
                       dest: array<real>, offset: nat, c: nat, ghost before: seq<real>)
    requires ValidBlocks(rowEnds, colEnds, cols) && offset + Size(colEnds) <= dest.Length && c < |colEnds|
    requires r < |rowEnds| && r in cols[c] && Accumulated(rowEnds, colEnds, cols, x, before, dest[..], offset, r, c)
    modifies dest
    ensures Accumulated(rowEnds, colEnds, cols, x, before, dest[..], offset, r + 1, c)
  {
    hide Accumulated;
    ghost var mid := dest[..];
    BaseMonotone(colEnds, c, c + 1);
    BaseMonotone(colEnds, c + 1, |colEnds|);
    Axpy(Transpose(cols[c][r]), Dim(colEnds, c), Dim(rowEnds, r), x, Base(rowEnds, r), dest, offset + Base(colEnds, c));
    AddBlockShare(rowEnds, colEnds, cols, x, before, mid, dest[..], offset, r, c);
  }
}
