/** The product of a vector with a symmetric matrix of which only the upper triangle of blocks is stored. */
module SymmetricProduct {
  import opened Sums
  import opened LinearAlgebra
  import opened BlockLayout
  import opened SparseBlocks
  import opened SchurElimination

  /** Entry (i, j) of the symmetric matrix: blocks below the diagonal are the transposes of stored ones. */
  ghost function FullEntry(ends: seq<nat>, cols: BlockColumns, i: int, j: int): real {
    var r, c := BlockOf(ends, i), BlockOf(ends, j);
    if r <= c then BlockEntry(cols, r, c, i - Base(ends, r), j - Base(ends, c))
    else BlockEntry(cols, c, r, j - Base(ends, c), i - Base(ends, r))
  }

  ghost function Full(ends: seq<nat>, cols: BlockColumns): Matrix {
    (i, j) => FullEntry(ends, cols, i, j)
  }

  /** No block is stored below the diagonal. */
  ghost predicate UpperOnly(cols: BlockColumns) {
    forall c, r :: 0 <= c < |cols| && r in cols[c] ==> r <= c
  }

  lemma SegmentWithin(ends: seq<nat>, b: nat, t: nat)
    requires InSegment(ends, b, t)
    ensures Within(ends, b, Base(ends, b) + t)
  {
  }

  /** Row k lies in block b of the layout at offset t. */
  lemma Locate(ends: seq<nat>, k: int) returns (b: nat, t: nat)
    requires 0 <= k < Size(ends)
    ensures InSegment(ends, b, t) && k == Base(ends, b) + t && b == BlockOf(ends, k)
  {
    BlockOfWithin(ends, k);
    b := BlockOf(ends, k);
    t := k - Base(ends, b);
  }

  lemma FullInBlock(ends: seq<nat>, cols: BlockColumns, r: nat, a: nat, c: nat, b: nat)
    requires Monotone(ends) && InSegment(ends, r, a) && InSegment(ends, c, b)
    ensures Full(ends, cols)(Base(ends, r) + a, Base(ends, c) + b)
         == if r <= c then BlockEntry(cols, r, c, a, b) else BlockEntry(cols, c, r, b, a)
  {
    SegmentWithin(ends, r, a);
    SegmentWithin(ends, c, b);
    hide BlockEntry, Within, InSegment;
    BlockUnique(ends, r, Base(ends, r) + a);
    BlockUnique(ends, c, Base(ends, c) + b);
  }

  ghost function RowTerms(ends: seq<nat>, cols: BlockColumns, b: nat, t: nat, x: Vector): Vector {
    Terms(Full(ends, cols), Base(ends, b) + t, x)
  }

  /** What block column (or row) k of the full matrix adds to entry t of segment b. */
  ghost function Share(ends: seq<nat>, cols: BlockColumns, b: nat, k: nat, x: Vector): Vector {
    if b <= k then
      if k < |cols| && b in cols[k] then MatVec(Dim(ends, k), cols[k][b], FromOffset(x, Base(ends, k))) else i => 0.0
    else
      if b < |cols| && k in cols[b] then MatVec(Dim(ends, k), Transpose(cols[b][k]), FromOffset(x, Base(ends, k))) else i => 0.0
  }

  lemma SharePart(ends: seq<nat>, cols: BlockColumns, b: nat, t: nat, k: nat, x: Vector)
    requires Monotone(ends) && InSegment(ends, b, t) && k < |ends|
    ensures var f := RowTerms(ends, cols, b, t, x);
            Sum(0, Base(ends, k + 1), f) == Sum(0, Base(ends, k), f) + Share(ends, cols, b, k, x)(t)
  {
    hide *;
    var f, g := RowTerms(ends, cols, b, t, x), ShareTerms(ends, cols, b, t, k, x);
    forall s: nat | s < Dim(ends, k) ensures g(s) == f(Base(ends, k) + s) {
      ShareTerm(ends, cols, b, t, k, s, x);
    }
    SumOfBlock(ends, k, f, g);
    ShareSum(ends, cols, b, t, k, x);
  }

  ghost function ShareTerms(ends: seq<nat>, cols: BlockColumns, b: nat, t: nat, k: nat, x: Vector): Vector {
    s => (if b <= k then BlockEntry(cols, b, k, t, s) else BlockEntry(cols, k, b, s, t)) * x(Base(ends, k) + s)
  }

  lemma ShareTerm(ends: seq<nat>, cols: BlockColumns, b: nat, t: nat, k: nat, s: nat, x: Vector)
    requires Monotone(ends) && InSegment(ends, b, t) && k < |ends| && s < Dim(ends, k)
    ensures ShareTerms(ends, cols, b, t, k, x)(s) == RowTerms(ends, cols, b, t, x)(Base(ends, k) + s)
  {
    assert InSegment(ends, k, s);
    hide FullEntry, BlockEntry, Base, Dim, InSegment;
    FullInBlock(ends, cols, b, t, k, s);
  }

  lemma ShareSum(ends: seq<nat>, cols: BlockColumns, b: nat, t: nat, k: nat, x: Vector)
    ensures Sum(0, Dim(ends, k), ShareTerms(ends, cols, b, t, k, x)) == Share(ends, cols, b, k, x)(t)
  {
    hide Base, Dim;
    var n, y, f := Dim(ends, k), FromOffset(x, Base(ends, k)), ShareTerms(ends, cols, b, t, k, x);
    if b <= k && k < |cols| && b in cols[k] {
      forall s ensures f(s) == Terms(cols[k][b], t, y)(s) {
        EntryPresent(cols, b, k, t, s);
      }
      SumCong(0, n, f, Terms(cols[k][b], t, y));
    } else if k < b < |cols| && k in cols[b] {
      forall s ensures f(s) == Terms(Transpose(cols[b][k]), t, y)(s) {
        EntryPresent(cols, k, b, s, t);
      }
      SumCong(0, n, f, Terms(Transpose(cols[b][k]), t, y));
    } else {
      forall s ensures f(s) == 0.0 {
        if b <= k {
          assert BlockEntry(cols, b, k, t, s) == 0.0;
        } else {
          assert BlockEntry(cols, k, b, s, t) == 0.0;
        }
      }
      SumZero(0, n, f);
    }
  }

  // ----- Progress

  /** How many blocks of the full matrix segment b has received once column c is done down to row r. */
  ghost function Stage(b: nat, r: nat, c: nat): nat {
    if b < c then if b < r then c + 1 else c
    else if b == c then r
    else 0
  }

  ghost predicate Gained(ends: seq<nat>, cols: BlockColumns, x: Vector, before: seq<real>, after: seq<real>, b: nat,
                         t: nat, stage: nat) {
    var p := Base(ends, b) + t;
    p < |before| && p < |after| && after[p] == before[p] + Sum(0, Base(ends, stage), RowTerms(ends, cols, b, t, x))
  }

  ghost predicate Accumulated(ends: seq<nat>, cols: BlockColumns, x: Vector, before: seq<real>, after: seq<real>,
                              r: nat, c: nat) {
    |before| == |after| && forall b: nat, t: nat :: InSegment(ends, b, t) ==> Gained(ends, cols, x, before, after, b, t, Stage(b, r, c))
  }

  /** Entry t of segment b goes from one stage to the next when exactly its share is added. */
  lemma Gain(ends: seq<nat>, cols: BlockColumns, x: Vector, before: seq<real>, mid: seq<real>, after: seq<real>,
             b: nat, t: nat, k: nat)
    requires Monotone(ends) && InSegment(ends, b, t) && k < |ends| && |mid| == |after|
    requires Gained(ends, cols, x, before, mid, b, t, k)
    requires after[Base(ends, b) + t] == mid[Base(ends, b) + t] + Share(ends, cols, b, k, x)(t)
    ensures Gained(ends, cols, x, before, after, b, t, k + 1)
  {
    hide InSegment, Base, RowTerms, Share, Sum;
    SharePart(ends, cols, b, t, k, x);
  }

  lemma Keep(ends: seq<nat>, cols: BlockColumns, x: Vector, before: seq<real>, mid: seq<real>, after: seq<real>,
             b: nat, t: nat, stage: nat)
    requires Gained(ends, cols, x, before, mid, b, t, stage) && |mid| == |after|
    requires after[Base(ends, b) + t] == mid[Base(ends, b) + t]
    ensures Gained(ends, cols, x, before, after, b, t, stage)
  {
  }

  /** Only the segments of row r and column c move on when row r of column c is done. */
  lemma StageMoves(b: nat, r: nat, c: nat)
    requires r <= c
    ensures b == r ==> Stage(b, r, c) == c && Stage(b, r + 1, c) == c + 1
    ensures b == c ==> Stage(b, r, c) == r && Stage(b, r + 1, c) == r + 1
    ensures b != r && b != c ==> Stage(b, r, c) == Stage(b, r + 1, c)
  {
  }

  /** What row r of column c adds to segment b: a block off the diagonal adds to two segments. */
  ghost function AddedAt(ends: seq<nat>, cols: BlockColumns, x: Vector, r: nat, c: nat, b: nat): Vector {
    if b == r then Share(ends, cols, r, c, x) else if b == c then Share(ends, cols, c, r, x) else i => 0.0
  }

  ghost predicate Added(ends: seq<nat>, cols: BlockColumns, x: Vector, mid: seq<real>, after: seq<real>, r: nat, c: nat) {
    && |after| == |mid|
    && forall b: nat, t: nat :: InSegment(ends, b, t) && Base(ends, b) + t < |mid| ==>
        after[Base(ends, b) + t] == mid[Base(ends, b) + t] + AddedAt(ends, cols, x, r, c, b)(t)
  }

  lemma AddBlock(ends: seq<nat>, cols: BlockColumns, x: Vector, before: seq<real>, mid: seq<real>, after: seq<real>,
                 r: nat, c: nat)
    requires Monotone(ends) && r <= c < |ends| == |cols|
    requires Accumulated(ends, cols, x, before, mid, r, c) && Added(ends, cols, x, mid, after, r, c)
    ensures Accumulated(ends, cols, x, before, after, r + 1, c)
  {
    hide InSegment, Base, RowTerms, Share, Sum, Stage;
    forall b: nat, t: nat | InSegment(ends, b, t) ensures Gained(ends, cols, x, before, after, b, t, Stage(b, r + 1, c)) {
      StageMoves(b, r, c);
      assert Gained(ends, cols, x, before, mid, b, t, Stage(b, r, c));
      if b == r {
        Gain(ends, cols, x, before, mid, after, b, t, c);
      } else if b == c {
        Gain(ends, cols, x, before, mid, after, b, t, r);
      } else {
        Keep(ends, cols, x, before, mid, after, b, t, Stage(b, r, c));
      }
    }
  }

  /** An absent block has nothing to add. */
  lemma SkipBlock(ends: seq<nat>, cols: BlockColumns, x: Vector, before: seq<real>, after: seq<real>, r: nat, c: nat)
    requires Monotone(ends) && r <= c < |ends| == |cols| && r !in cols[c]
    requires Accumulated(ends, cols, x, before, after, r, c)
    ensures Accumulated(ends, cols, x, before, after, r + 1, c)
  {
    assert Added(ends, cols, x, after, after, r, c);
    hide *;
    AddBlock(ends, cols, x, before, after, after, r, c);
  }

  /** dest += M x for the symmetric matrix M; blocks stored below the diagonal are ignored. */
  method MultiplySymmetricUpperTriangle(matrix: SparseBlockMatrix, dest: array<real>, x: Vector)
    requires matrix.Valid() && matrix.rowBlockIndices == matrix.colBlockIndices
    requires dest.Length == Size(matrix.rowBlockIndices)
    modifies dest
    ensures forall i :: 0 <= i < dest.Length ==>
      dest[i] == old(dest[i]) + MatVec(dest.Length, Full(matrix.rowBlockIndices, matrix.blockCols), x)(i)
  {
    var ends, cols := matrix.rowBlockIndices, matrix.blockCols;
    ghost var before := dest[..];
    StartAccumulated(ends, cols, x, before);
    for c := 0 to |cols|
      invariant Accumulated(ends, cols, x, before, dest[..], 0, c)
    {
      MultiplyColumn(ends, cols, dest, x, c, before);
    }
    forall i | 0 <= i < dest.Length ensures dest[i] == before[i] + MatVec(dest.Length, Full(ends, cols), x)(i) {
      FinishAccumulated(ends, cols, x, before, dest[..], i);
    }
  }

  lemma StartAccumulated(ends: seq<nat>, cols: BlockColumns, x: Vector, before: seq<real>)
    requires Monotone(ends) && |before| == Size(ends)
    ensures Accumulated(ends, cols, x, before, before, 0, 0)
  {
    forall b: nat, t: nat | InSegment(ends, b, t) ensures Gained(ends, cols, x, before, before, b, t, Stage(b, 0, 0)) {
      BaseMonotone(ends, b + 1, |ends|);
      hide RowTerms;
      assert Base(ends, 0) == 0;
    }
  }

  lemma FinishAccumulated(ends: seq<nat>, cols: BlockColumns, x: Vector, before: seq<real>, after: seq<real>, i: int)
    requires Monotone(ends) && 0 <= i < Size(ends) == |before| && Accumulated(ends, cols, x, before, after, 0, |ends|)
    ensures |after| == |before| && after[i] == before[i] + MatVec(Size(ends), Full(ends, cols), x)(i)
  {
    var b := BlockOf(ends, i);
    BlockOfWithin(ends, i);
    assert InSegment(ends, b, i - Base(ends, b));
    hide Full, InSegment, BlockOf;
    assert Gained(ends, cols, x, before, after, b, i - Base(ends, b), Stage(b, 0, |ends|));
  }

  /** The blocks of column c, row by row, up to the first that starts below the diagonal. */
  method MultiplyColumn(ends: seq<nat>, cols: BlockColumns, dest: array<real>, x: Vector, c: nat, ghost before: seq<real>)
    requires ValidBlocks(ends, ends, cols) && c < |ends| && dest.Length == Size(ends)
    requires Accumulated(ends, cols, x, before, dest[..], 0, c)
    modifies dest
    ensures Accumulated(ends, cols, x, before, dest[..], 0, c + 1)
  {
    hide Accumulated, Size, Base;
    var r := 0;
    while r < |ends| && !(r in cols[c] && Base(ends, r) > Base(ends, c))
      invariant r <= |ends|
      invariant Accumulated(ends, cols, x, before, dest[..], if r <= c then r else c + 1, c)
    {
      MultiplyRow(ends, cols, dest, x, r, c, before);
      r := r + 1;
    }
    if r < |ends| {
      BasesFollow(ends, cols, r, c);
    }
    NextColumn(ends, cols, x, before, dest[..], c);
  }

  method MultiplyRow(ends: seq<nat>, cols: BlockColumns, dest: array<real>, x: Vector, r: nat, c: nat, ghost before: seq<real>)
    requires ValidBlocks(ends, ends, cols) && r < |ends| && c < |ends| && dest.Length == Size(ends)
    requires r in cols[c] ==> Base(ends, r) <= Base(ends, c)
    requires Accumulated(ends, cols, x, before, dest[..], if r <= c then r else c + 1, c)
    modifies dest
    ensures Accumulated(ends, cols, x, before, dest[..], if r < c then r + 1 else c + 1, c)
  {
    hide Accumulated, Added, Size, Base;
    if r in cols[c] {
      ghost var mid := dest[..];
      MultiplyBlock(ends, cols, dest, x, r, c);
      if r <= c {
        AddBlock(ends, cols, x, before, mid, dest[..], r, c);
      }
    } else if r <= c {
      SkipBlock(ends, cols, x, before, dest[..], r, c);
    }
  }

  lemma BasesFollow(ends: seq<nat>, cols: BlockColumns, r: nat, c: nat)
    requires ValidBlocks(ends, ends, cols) && r < |ends| && c < |ends| && Base(ends, r) > Base(ends, c)
    ensures r > c
  {
    if r < c {
      BaseMonotone(ends, r, c);
    }
  }

  lemma NextColumn(ends: seq<nat>, cols: BlockColumns, x: Vector, before: seq<real>, after: seq<real>, c: nat)
    requires Accumulated(ends, cols, x, before, after, c + 1, c)
    ensures Accumulated(ends, cols, x, before, after, 0, c + 1)
  {
    hide Gained, InSegment;
    forall b: nat, t: nat | InSegment(ends, b, t) ensures Gained(ends, cols, x, before, after, b, t, Stage(b, 0, c + 1)) {
      assert Gained(ends, cols, x, before, after, b, t, Stage(b, c + 1, c));
      assert Stage(b, 0, c + 1) == Stage(b, c + 1, c);
    }
  }

  /** One block and, if it lies above the diagonal, its transpose. A block without rows or columns adds nothing. */
  method MultiplyBlock(ends: seq<nat>, cols: BlockColumns, dest: array<real>, x: Vector, r: nat, c: nat)
    requires ValidBlocks(ends, ends, cols) && r < |ends| && c < |ends| && r in cols[c] && dest.Length == Size(ends)
    requires Base(ends, r) <= Base(ends, c)
    modifies dest
    ensures if r <= c then Added(ends, cols, x, old(dest[..]), dest[..], r, c) else dest[..] == old(dest[..])
  {
    ghost var mid := dest[..];
    var a := cols[c][r];
    var srcOffset, destOffset := Base(ends, c), Base(ends, r);
    SegmentFits(ends, r);
    SegmentFits(ends, c);
    Axpy(a, Dim(ends, r), Dim(ends, c), x, srcOffset, dest, destOffset);
    if destOffset < srcOffset {
      Axpy(Transpose(a), Dim(ends, c), Dim(ends, r), x, destOffset, dest, srcOffset);
    }
    EmptyOnTie(ends, r, c);
    if r <= c {
      BothSegments(ends, cols, x, mid, dest[..], r, c);
    }
  }

  /** Blocks that start at the same row, or out of order, have an empty one among them. */
  lemma EmptyOnTie(ends: seq<nat>, r: nat, c: nat)
    requires Monotone(ends) && r < |ends| && c < |ends| && Base(ends, r) <= Base(ends, c)
    ensures r > c ==> Base(ends, r) == Base(ends, c) && Dim(ends, c) == 0
    ensures r < c && Base(ends, r) == Base(ends, c) ==> Dim(ends, r) == 0
    ensures r == c ==> Base(ends, r) == Base(ends, c)
  {
    if r > c {
      BaseMonotone(ends, c + 1, r);
    } else if r < c {
      BaseMonotone(ends, r + 1, c);
    }
  }

  lemma SegmentFits(ends: seq<nat>, b: nat)
    requires Monotone(ends) && b < |ends|
    ensures Base(ends, b) + Dim(ends, b) <= Size(ends)
  {
    BaseMonotone(ends, b, b + 1);
    BaseMonotone(ends, b + 1, |ends|);
  }

  lemma SegmentsApart(ends: seq<nat>, b: nat, t: nat, c: nat)
    requires Monotone(ends) && InSegment(ends, b, t) && c < |ends|
    ensures Base(ends, c) <= Base(ends, b) + t < Base(ends, c) + Dim(ends, c) <==> b == c
  {
    SegmentWithin(ends, b, t);
    BlockUnique(ends, b, Base(ends, b) + t);
    BaseMonotone(ends, c, c + 1);
    if Within(ends, c, Base(ends, b) + t) {
      BlockUnique(ends, c, Base(ends, b) + t);
    }
  }

  lemma BothSegments(ends: seq<nat>, cols: BlockColumns, x: Vector, mid: seq<real>, after: seq<real>, r: nat, c: nat)
    requires Monotone(ends) && r <= c < |ends| == |cols| && r in cols[c] && |mid| == |after|
    requires forall p :: 0 <= p < |mid| ==>
      after[p] == mid[p] + (if Base(ends, r) <= p < Base(ends, r) + Dim(ends, r)
         then MatVec(Dim(ends, c), cols[c][r], FromOffset(x, Base(ends, c)))(p - Base(ends, r)) else 0.0) +
        (if r < c && Base(ends, c) <= p < Base(ends, c) + Dim(ends, c)
         then MatVec(Dim(ends, r), Transpose(cols[c][r]), FromOffset(x, Base(ends, r)))(p - Base(ends, c)) else 0.0)
    ensures Added(ends, cols, x, mid, after, r, c)
  {
    forall b: nat, t: nat | InSegment(ends, b, t) && Base(ends, b) + t < |mid|
      ensures after[Base(ends, b) + t] == mid[Base(ends, b) + t] + AddedAt(ends, cols, x, r, c, b)(t)
    {
      SegmentsApart(ends, b, t, r);
      SegmentsApart(ends, b, t, c);
      hide MatVec;
    }
  }

  /** With symmetric diagonal blocks this is the matrix whose upper triangle is stored. */
  lemma FullIsUpper(ends: seq<nat>, cols: BlockColumns, i: int, j: int)
    requires ValidBlocks(ends, ends, cols) && 0 <= i < Size(ends) && 0 <= j < Size(ends)
    requires forall b :: 0 <= b < |cols| && b in cols[b] ==> SymmetricMatrix(Dim(ends, b), cols[b][b])
    ensures Full(ends, cols)(i, j) == Upper(Dense(ends, ends, cols))(i, j)
  {
    var r, c := BlockOf(ends, i), BlockOf(ends, j);
    BlockOfWithin(ends, i);
    BlockOfWithin(ends, j);
    BlockOrder(ends, r, i, c, j);
    BlockOrder(ends, c, j, r, i);
    if r == c && r in cols[r] {
      assert cols[r][r](i - Base(ends, r), j - Base(ends, r)) == cols[r][r](j - Base(ends, r), i - Base(ends, r));
    }
  }
}
