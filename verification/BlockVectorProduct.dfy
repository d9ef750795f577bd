/** The product of a block-sparse matrix with a vector, accumulated block by block over the columns. */
module BlockVectorProduct {
  import opened Sums
  import opened LinearAlgebra
  import opened BlockLayout
  import opened SparseBlocks

  /** The terms of entry i of M x. */
  ghost function RowTerms(rowEnds: seq<nat>, colEnds: seq<nat>, cols: BlockColumns, i: int, x: Vector): Vector {
    Terms(Dense(rowEnds, colEnds, cols), i, x)
  }

  /** What block (r, c) adds to segment r of M x. */
  ghost function BlockShare(colEnds: seq<nat>, cols: BlockColumns, r: nat, c: nat, x: Vector): Vector {
    if c < |cols| && r in cols[c] then MatVec(Dim(colEnds, c), cols[c][r], FromOffset(x, Base(colEnds, c))) else i => 0.0
  }

  ghost function ShareTerms(colEnds: seq<nat>, cols: BlockColumns, r: nat, c: nat, t: int, x: Vector): Vector {
    k => BlockEntry(cols, r, c, t, k) * x(Base(colEnds, c) + k)
  }

  lemma RowPart(rowEnds: seq<nat>, colEnds: seq<nat>, cols: BlockColumns, r: nat, c: nat, t: nat, x: Vector)
    requires ValidBlocks(rowEnds, colEnds, cols) && InSegment(rowEnds, r, t) && c < |colEnds|
    ensures var f := RowTerms(rowEnds, colEnds, cols, Base(rowEnds, r) + t, x);
            Sum(0, Base(colEnds, c + 1), f) == Sum(0, Base(colEnds, c), f) + BlockShare(colEnds, cols, r, c, x)(t)
  {
    hide *;
    ValidParts(rowEnds, colEnds, cols);
    var f, g := RowTerms(rowEnds, colEnds, cols, Base(rowEnds, r) + t, x), ShareTerms(colEnds, cols, r, c, t, x);
    forall k | 0 <= k < Dim(colEnds, c) ensures g(k) == f(Base(colEnds, c) + k) {
      RowTerm(rowEnds, colEnds, cols, r, c, t, x, k);
    }
    SumOfBlock(colEnds, c, f, g);
    ShareSum(colEnds, cols, r, c, t, x);
  }

  lemma ValidParts(rowEnds: seq<nat>, colEnds: seq<nat>, cols: BlockColumns)
    requires ValidBlocks(rowEnds, colEnds, cols)
    ensures Monotone(rowEnds) && Monotone(colEnds) && |cols| == |colEnds|
  {
  }

  lemma RowTerm(rowEnds: seq<nat>, colEnds: seq<nat>, cols: BlockColumns, r: nat, c: nat, t: nat, x: Vector, k: int)
    requires ValidBlocks(rowEnds, colEnds, cols) && InSegment(rowEnds, r, t) && c < |colEnds| && 0 <= k < Dim(colEnds, c)
    ensures ShareTerms(colEnds, cols, r, c, t, x)(k)
         == RowTerms(rowEnds, colEnds, cols, Base(rowEnds, r) + t, x)(Base(colEnds, c) + k)
  {
    assert Within(rowEnds, r, Base(rowEnds, r) + t) && Within(colEnds, c, Base(colEnds, c) + k);
    hide BlockEntry, Entry, Base, Dim, Within;
    EntryInBlock(rowEnds, colEnds, cols, r, c, Base(rowEnds, r) + t, Base(colEnds, c) + k);
  }

  lemma ShareSum(colEnds: seq<nat>, cols: BlockColumns, r: nat, c: nat, t: nat, x: Vector)
    ensures Sum(0, Dim(colEnds, c), ShareTerms(colEnds, cols, r, c, t, x)) == BlockShare(colEnds, cols, r, c, x)(t)
  {
    hide Base, Dim;
    var n, y := Dim(colEnds, c), FromOffset(x, Base(colEnds, c));
    if c < |cols| && r in cols[c] {
      forall k ensures ShareTerms(colEnds, cols, r, c, t, x)(k) == Terms(cols[c][r], t, y)(k) {
        EntryPresent(cols, r, c, t, k);
      }
      SumCong(0, n, ShareTerms(colEnds, cols, r, c, t, x), Terms(cols[c][r], t, y));
    } else {
      forall k ensures ShareTerms(colEnds, cols, r, c, t, x)(k) == 0.0 {
        assert BlockEntry(cols, r, c, t, k) == 0.0;
      }
      SumZero(0, n, ShareTerms(colEnds, cols, r, c, t, x));
    }
  }

  /** Entry t of segment b has received the first u columns. */
  ghost predicate Gained(rowEnds: seq<nat>, colEnds: seq<nat>, cols: BlockColumns, x: Vector, before: seq<real>,
                         after: seq<real>, b: nat, t: nat, u: nat)
  {
    var p := Base(rowEnds, b) + t;
    p < |before| && p < |after|
    && after[p] == before[p] + Sum(0, Base(colEnds, u), RowTerms(rowEnds, colEnds, cols, p, x))
  }

  /** How many columns segment b has received once column c is done down to row r. */
  ghost function Columns(b: nat, r: nat, c: nat): nat {
    if b < r then c + 1 else c
  }

  /** Every segment has received the columns before c, and those before r column c as well. */
  ghost predicate Accumulated(rowEnds: seq<nat>, colEnds: seq<nat>, cols: BlockColumns, x: Vector, before: seq<real>,
                              after: seq<real>, r: nat, c: nat)
  {
    |before| == |after| && forall b: nat, t: nat :: InSegment(rowEnds, b, t) ==>
      Gained(rowEnds, colEnds, cols, x, before, after, b, t, Columns(b, r, c))
  }

  /** after differs from mid by what block (r, c) adds. */
  ghost predicate Added(rowEnds: seq<nat>, colEnds: seq<nat>, cols: BlockColumns, x: Vector, mid: seq<real>, after: seq<real>,
                        r: nat, c: nat)
  {
    |mid| == |after| && forall b: nat, t: nat :: InSegment(rowEnds, b, t) && Base(rowEnds, b) + t < |mid| ==>
      AddedAt(rowEnds, colEnds, cols, x, mid, after, r, c, b, t)
  }

  ghost predicate AddedAt(rowEnds: seq<nat>, colEnds: seq<nat>, cols: BlockColumns, x: Vector, mid: seq<real>, after: seq<real>,
                          r: nat, c: nat, b: nat, t: nat)
    requires Base(rowEnds, b) + t < |mid| == |after|
  {
    var p := Base(rowEnds, b) + t;
    after[p] == mid[p] + if b == r then BlockShare(colEnds, cols, r, c, x)(t) else 0.0
  }

  lemma NextRow(rowEnds: seq<nat>, colEnds: seq<nat>, cols: BlockColumns, x: Vector, before: seq<real>, mid: seq<real>,
                after: seq<real>, r: nat, c: nat)
    requires ValidBlocks(rowEnds, colEnds, cols) && c < |colEnds| && Accumulated(rowEnds, colEnds, cols, x, before, mid, r, c)
    requires Added(rowEnds, colEnds, cols, x, mid, after, r, c)
    ensures Accumulated(rowEnds, colEnds, cols, x, before, after, r + 1, c)
  {
    hide InSegment, Base, RowTerms, BlockShare, ValidBlocks;
    var next := r + 1;
    forall b: nat, t: nat | InSegment(rowEnds, b, t)
      ensures Gained(rowEnds, colEnds, cols, x, before, after, b, t, Columns(b, next, c))
    {
      assert Gained(rowEnds, colEnds, cols, x, before, mid, b, t, Columns(b, r, c));
      assert AddedAt(rowEnds, colEnds, cols, x, mid, after, r, c, b, t);
      if b == r {
        RowPart(rowEnds, colEnds, cols, r, c, t, x);
      }
    }
  }

  method MultiplyBlock(rowEnds: seq<nat>, colEnds: seq<nat>, cols: BlockColumns, x: Vector, dest: array<real>, r: nat, c: nat)
    requires ValidBlocks(rowEnds, colEnds, cols) && c < |colEnds| && r in cols[c] && dest.Length == Size(rowEnds)
    modifies dest
    ensures Added(rowEnds, colEnds, cols, x, old(dest[..]), dest[..], r, c)
  {
    ghost var mid := dest[..];
    BaseMonotone(rowEnds, r, r + 1);
    BaseMonotone(rowEnds, r + 1, |rowEnds|);
    Axpy(cols[c][r], Dim(rowEnds, r), Dim(colEnds, c), x, Base(colEnds, c), dest, Base(rowEnds, r));
    forall b: nat, t: nat | InSegment(rowEnds, b, t) && Base(rowEnds, b) + t < |mid|
      ensures AddedAt(rowEnds, colEnds, cols, x, mid, dest[..], r, c, b, t)
    {
      SegmentsApart(rowEnds, b, t, r);
      hide MatVec;
    }
  }

  lemma SegmentsApart(ends: seq<nat>, b: nat, t: nat, r: nat)
    requires Monotone(ends) && InSegment(ends, b, t) && r < |ends|
    ensures Base(ends, r) <= Base(ends, b) + t < Base(ends, r) + Dim(ends, r) <==> b == r
  {
    BlockUnique(ends, b, Base(ends, b) + t);
    BaseMonotone(ends, r, r + 1);
    if Within(ends, r, Base(ends, b) + t) {
      BlockUnique(ends, r, Base(ends, b) + t);
    }
  }

  lemma Absent(rowEnds: seq<nat>, colEnds: seq<nat>, cols: BlockColumns, x: Vector, dest: seq<real>, r: nat, c: nat)
    requires c < |cols| && r !in cols[c]
    ensures Added(rowEnds, colEnds, cols, x, dest, dest, r, c)
  {
  }

  method MultiplyColumn(rowEnds: seq<nat>, colEnds: seq<nat>, cols: BlockColumns, x: Vector, dest: array<real>, c: nat,
                        ghost before: seq<real>)
    requires ValidBlocks(rowEnds, colEnds, cols) && c < |colEnds| && dest.Length == Size(rowEnds)
    requires Accumulated(rowEnds, colEnds, cols, x, before, dest[..], 0, c)
    modifies dest
    ensures Accumulated(rowEnds, colEnds, cols, x, before, dest[..], 0, c + 1)
  {
    hide Accumulated, Added, Size;
    for r := 0 to |rowEnds|
      invariant Accumulated(rowEnds, colEnds, cols, x, before, dest[..], r, c)
    {
      ghost var mid := dest[..];
      if r in cols[c] {
        MultiplyBlock(rowEnds, colEnds, cols, x, dest, r, c);
      } else {
        Absent(rowEnds, colEnds, cols, x, mid, r, c);
      }
      NextRow(rowEnds, colEnds, cols, x, before, mid, dest[..], r, c);
    }
    NextColumn(rowEnds, colEnds, cols, x, before, dest[..], c);
  }

  lemma NextColumn(rowEnds: seq<nat>, colEnds: seq<nat>, cols: BlockColumns, x: Vector, before: seq<real>, after: seq<real>,
                   c: nat)
    requires Accumulated(rowEnds, colEnds, cols, x, before, after, |rowEnds|, c)
    ensures Accumulated(rowEnds, colEnds, cols, x, before, after, 0, c + 1)
  {
    hide Gained;
    var next := c + 1;
    forall b: nat, t: nat | InSegment(rowEnds, b, t)
      ensures Gained(rowEnds, colEnds, cols, x, before, after, b, t, Columns(b, 0, next))
    {
      assert Gained(rowEnds, colEnds, cols, x, before, after, b, t, Columns(b, |rowEnds|, c));
    }
  }

  /** dest += M x. */
  method Multiply(matrix: SparseBlockMatrix, x: Vector, dest: array<real>)
    requires matrix.Valid() && dest.Length == Size(matrix.rowBlockIndices)
    modifies dest
    ensures forall i :: 0 <= i < dest.Length ==>
      dest[i] == old(dest[i]) + MatVec(Size(matrix.colBlockIndices), matrix.AsDense(), x)(i)
  {
    var rowEnds, colEnds, cols := matrix.rowBlockIndices, matrix.colBlockIndices, matrix.blockCols;
    ghost var before := dest[..];
    Start(rowEnds, colEnds, cols, x, before);
    for c := 0 to |cols|
      invariant Accumulated(rowEnds, colEnds, cols, x, before, dest[..], 0, c)
    {
      MultiplyColumn(rowEnds, colEnds, cols, x, dest, c, before);
    }
    forall i | 0 <= i < dest.Length ensures dest[i] == before[i] + MatVec(Size(colEnds), Dense(rowEnds, colEnds, cols), x)(i) {
      Finish(rowEnds, colEnds, cols, x, before, dest[..], i);
    }
  }

  lemma Start(rowEnds: seq<nat>, colEnds: seq<nat>, cols: BlockColumns, x: Vector, before: seq<real>)
    requires Monotone(rowEnds) && |before| == Size(rowEnds)
    ensures Accumulated(rowEnds, colEnds, cols, x, before, before, 0, 0)
  {
    forall b: nat, t: nat | InSegment(rowEnds, b, t)
      ensures Gained(rowEnds, colEnds, cols, x, before, before, b, t, Columns(b, 0, 0))
    {
      BaseMonotone(rowEnds, b + 1, |rowEnds|);
      hide RowTerms;
      assert Base(colEnds, 0) == 0;
    }
  }

  lemma Finish(rowEnds: seq<nat>, colEnds: seq<nat>, cols: BlockColumns, x: Vector, before: seq<real>, after: seq<real>, i: int)
    requires Monotone(rowEnds) && 0 <= i < Size(rowEnds) == |before|
    requires Accumulated(rowEnds, colEnds, cols, x, before, after, 0, |colEnds|)
    ensures |after| == |before| && after[i] == before[i] + MatVec(Size(colEnds), Dense(rowEnds, colEnds, cols), x)(i)
  {
    var b := BlockOf(rowEnds, i);
    BlockOfWithin(rowEnds, i);
    assert InSegment(rowEnds, b, i - Base(rowEnds, b));
    hide Dense, BlockOf, InSegment;
    assert Gained(rowEnds, colEnds, cols, x, before, after, b, i - Base(rowEnds, b), |colEnds|);
  }
}
