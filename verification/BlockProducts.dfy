/** The product of two block-sparse matrices, accumulated block by block. */
module BlockProducts {
  import opened Sums
  import opened LinearAlgebra
  import opened BlockLayout
  import opened SparseBlocks

  /** The three layouts of a product: rows of A, columns of A and rows of M, columns of M. */
  datatype Shape = Shape(rows: seq<nat>, inner: seq<nat>, cols: seq<nat>)

  ghost predicate Ordered(s: Shape) {
    Monotone(s.rows) && Monotone(s.inner) && Monotone(s.cols)
  }

  /** (r, c, a, b) names entry (a, b) of block (r, c) of the result. */
  ghost predicate InBlock(s: Shape, r: nat, c: nat, a: nat, b: nat) {
    r < |s.rows| && c < |s.cols| && a < Dim(s.rows, r) && b < Dim(s.cols, c)
  }

  ghost function EntryTerms(s: Shape, A: BlockColumns, M: BlockColumns, r: nat, c: nat, a: nat, b: nat): Vector {
    Product(Dense(s.rows, s.inner, A), Base(s.rows, r) + a, Dense(s.inner, s.cols, M), Base(s.cols, c) + b)
  }

  /** The blocks A(r, k) and M(k, c) multiplied. */
  ghost function Share(s: Shape, A: BlockColumns, M: BlockColumns, r: nat, k: nat, c: nat): Matrix {
    if k < |A| && c < |M| && r in A[k] && k in M[c] then MatMul(Dim(s.inner, k), A[k][r], M[c][k]) else Zero()
  }

  ghost function ShareTerms(A: BlockColumns, M: BlockColumns, r: nat, k: nat, c: nat, a: nat, b: nat): Vector {
    t => (if t < 0 then 0.0 else BlockEntry(A, r, k, a, t) * BlockEntry(M, k, c, t, b))
  }

  lemma ShareTerm(s: Shape, A: BlockColumns, M: BlockColumns, r: nat, k: nat, c: nat, a: nat, b: nat, t: nat)
    requires Ordered(s) && InBlock(s, r, c, a, b) && k < |s.inner| && t < Dim(s.inner, k)
    ensures ShareTerms(A, M, r, k, c, a, b)(t) == EntryTerms(s, A, M, r, c, a, b)(Base(s.inner, k) + t)
  {
    var i, l, j := Base(s.rows, r) + a, Base(s.inner, k) + t, Base(s.cols, c) + b;
    assert Within(s.rows, r, i) && Within(s.inner, k, l) && Within(s.cols, c, j);
    hide Entry, BlockEntry, Within, Base, Dim;
    EntryInBlock(s.rows, s.inner, A, r, k, i, l);
    EntryInBlock(s.inner, s.cols, M, k, c, l, j);
  }

  lemma ShareSum(s: Shape, A: BlockColumns, M: BlockColumns, r: nat, k: nat, c: nat, a: nat, b: nat)
    ensures Sum(0, Dim(s.inner, k), ShareTerms(A, M, r, k, c, a, b)) == Share(s, A, M, r, k, c)(a, b)
  {
    hide Dim;
    var n, f := Dim(s.inner, k), ShareTerms(A, M, r, k, c, a, b);
    if k < |A| && c < |M| && r in A[k] && k in M[c] {
      forall t | 0 <= t < n ensures f(t) == Product(A[k][r], a, M[c][k], b)(t) {
        EntryPresent(A, r, k, a, t);
        EntryPresent(M, k, c, t, b);
      }
      SumCong(0, n, f, Product(A[k][r], a, M[c][k], b));
    } else {
      forall t | 0 <= t < n ensures f(t) == 0.0 {
        assert BlockEntry(A, r, k, a, t) == 0.0 || BlockEntry(M, k, c, t, b) == 0.0;
      }
      SumZero(0, n, f);
    }
  }

  lemma SharePart(s: Shape, A: BlockColumns, M: BlockColumns, r: nat, k: nat, c: nat, a: nat, b: nat)
    requires Ordered(s) && InBlock(s, r, c, a, b) && k < |s.inner|
    ensures var f := EntryTerms(s, A, M, r, c, a, b);
            Sum(0, Base(s.inner, k + 1), f) == Sum(0, Base(s.inner, k), f) + Share(s, A, M, r, k, c)(a, b)
  {
    hide *;
    OrderedInner(s);
    var f, g := EntryTerms(s, A, M, r, c, a, b), ShareTerms(A, M, r, k, c, a, b);
    forall t: nat | t < Dim(s.inner, k) ensures g(t) == f(Base(s.inner, k) + t) {
      ShareTerm(s, A, M, r, k, c, a, b, t);
    }
    SumOfBlock(s.inner, k, f, g);
    ShareSum(s, A, M, r, k, c, a, b);
  }

  lemma OrderedInner(s: Shape)
    requires Ordered(s)
    ensures Monotone(s.inner)
  {
  }

  // ----- Progress

  /** How many inner blocks entry (r', c') has seen when block (k, c) of M has met the rows of A above r. */
  ghost function Stage(r': nat, c': nat, r: nat, k: nat, c: nat, n: nat): nat {
    if c' < c then n else if c' == c then if r' < r then k + 1 else k else 0
  }

  ghost predicate Gained(s: Shape, A: BlockColumns, M: BlockColumns, before: BlockColumns, now: BlockColumns,
                         r: nat, c: nat, a: nat, b: nat, stage: nat) {
    BlockEntry(now, r, c, a, b) == BlockEntry(before, r, c, a, b) + Sum(0, Base(s.inner, stage), EntryTerms(s, A, M, r, c, a, b))
  }

  ghost predicate Accumulated(s: Shape, A: BlockColumns, M: BlockColumns, before: BlockColumns, now: BlockColumns,
                              r: nat, k: nat, c: nat) {
    forall r': nat, c': nat, a: nat, b: nat :: InBlock(s, r', c', a, b) ==>
      Gained(s, A, M, before, now, r', c', a, b, Stage(r', c', r, k, c, |s.inner|))
  }

  /** Block (r, c) has grown by B and no other block has changed. */
  ghost predicate Grown(s: Shape, mid: BlockColumns, now: BlockColumns, r: nat, c: nat, B: Matrix) {
    forall r': nat, c': nat, a: nat, b: nat :: InBlock(s, r', c', a, b) ==>
      BlockEntry(now, r', c', a, b) == BlockEntry(mid, r', c', a, b) + if (r', c') == (r, c) then B(a, b) else 0.0
  }

  lemma Gain(s: Shape, A: BlockColumns, M: BlockColumns, before: BlockColumns, mid: BlockColumns, now: BlockColumns,
             r: nat, k: nat, c: nat, a: nat, b: nat)
    requires Ordered(s) && InBlock(s, r, c, a, b) && k < |s.inner|
    requires Gained(s, A, M, before, mid, r, c, a, b, k)
    requires BlockEntry(now, r, c, a, b) == BlockEntry(mid, r, c, a, b) + Share(s, A, M, r, k, c)(a, b)
    ensures Gained(s, A, M, before, now, r, c, a, b, k + 1)
  {
    hide InBlock, Base, EntryTerms, Share, Sum, BlockEntry, Ordered;
    SharePart(s, A, M, r, k, c, a, b);
  }

  lemma AddBlock(s: Shape, A: BlockColumns, M: BlockColumns, before: BlockColumns, mid: BlockColumns,
                 now: BlockColumns, r: nat, k: nat, c: nat)
    requires Ordered(s) && k < |s.inner|
    requires Accumulated(s, A, M, before, mid, r, k, c) && Grown(s, mid, now, r, c, Share(s, A, M, r, k, c))
    ensures Accumulated(s, A, M, before, now, r + 1, k, c)
  {
    hide InBlock, Base, EntryTerms, Share, Sum, BlockEntry, Ordered;
    forall r': nat, c': nat, a: nat, b: nat | InBlock(s, r', c', a, b)
      ensures Gained(s, A, M, before, now, r', c', a, b, Stage(r', c', r + 1, k, c, |s.inner|))
    {
      assert Gained(s, A, M, before, mid, r', c', a, b, Stage(r', c', r, k, c, |s.inner|));
      if r' == r && c' == c {
        Gain(s, A, M, before, mid, now, r, k, c, a, b);
      }
    }
  }

  lemma SkipBlock(s: Shape, A: BlockColumns, M: BlockColumns, before: BlockColumns, now: BlockColumns, r: nat,
                  k: nat, c: nat)
    requires Ordered(s) && k < |s.inner| == |A| && c < |M| && (r !in A[k] || k !in M[c])
    requires Accumulated(s, A, M, before, now, r, k, c)
    ensures Accumulated(s, A, M, before, now, r + 1, k, c)
  {
    assert Grown(s, now, now, r, c, Share(s, A, M, r, k, c));
    hide *;
    AddBlock(s, A, M, before, now, now, r, k, c);
  }

  lemma {:induction false} SkipRows(s: Shape, A: BlockColumns, M: BlockColumns, before: BlockColumns,
                                    now: BlockColumns, r: nat, k: nat, c: nat)
    requires Ordered(s) && k < |s.inner| == |A| && c < |M| && k !in M[c]
    requires Accumulated(s, A, M, before, now, 0, k, c)
    ensures Accumulated(s, A, M, before, now, r, k, c)
  {
    hide *;
    if r > 0 {
      SkipRows(s, A, M, before, now, r - 1, k, c);
      SkipBlock(s, A, M, before, now, r - 1, k, c);
    }
  }

  /** All rows of the result have met inner block k. */
  lemma NextInner(s: Shape, A: BlockColumns, M: BlockColumns, before: BlockColumns, now: BlockColumns, k: nat, c: nat)
    requires Accumulated(s, A, M, before, now, |s.rows|, k, c)
    ensures Accumulated(s, A, M, before, now, 0, k + 1, c)
  {
    hide Gained;
    forall r': nat, c': nat, a: nat, b: nat | InBlock(s, r', c', a, b)
      ensures Gained(s, A, M, before, now, r', c', a, b, Stage(r', c', 0, k + 1, c, |s.inner|))
    {
      assert Stage(r', c', 0, k + 1, c, |s.inner|) == Stage(r', c', |s.rows|, k, c, |s.inner|);
    }
  }

  lemma NextColumn(s: Shape, A: BlockColumns, M: BlockColumns, before: BlockColumns, now: BlockColumns, c: nat)
    requires Accumulated(s, A, M, before, now, 0, |s.inner|, c)
    ensures Accumulated(s, A, M, before, now, 0, 0, c + 1)
  {
    hide Gained;
    forall r': nat, c': nat, a: nat, b: nat | InBlock(s, r', c', a, b)
      ensures Gained(s, A, M, before, now, r', c', a, b, Stage(r', c', 0, 0, c + 1, |s.inner|))
    {
      assert Stage(r', c', 0, 0, c + 1, |s.inner|) == Stage(r', c', 0, |s.inner|, c, |s.inner|);
    }
  }

  lemma StartAccumulated(s: Shape, A: BlockColumns, M: BlockColumns, before: BlockColumns)
    ensures Accumulated(s, A, M, before, before, 0, 0, 0)
  {
    hide EntryTerms, BlockEntry;
  }

  lemma FinishAccumulated(s: Shape, A: BlockColumns, M: BlockColumns, before: BlockColumns, now: BlockColumns,
                          i: int, j: int)
    requires Ordered(s) && 0 <= i < Size(s.rows) && 0 <= j < Size(s.cols)
    requires Accumulated(s, A, M, before, now, 0, 0, |s.cols|)
    ensures Entry(s.rows, s.cols, now, i, j)
         == Entry(s.rows, s.cols, before, i, j) + MatMul(Size(s.inner), Dense(s.rows, s.inner, A), Dense(s.inner, s.cols, M))(i, j)
  {
    var r, c := BlockOf(s.rows, i), BlockOf(s.cols, j);
    BlockOfWithin(s.rows, i);
    BlockOfWithin(s.cols, j);
    var a, b := i - Base(s.rows, r), j - Base(s.cols, c);
    assert InBlock(s, r, c, a, b);
    hide BlockOf, InBlock, BlockEntry, Dense;
    assert Gained(s, A, M, before, now, r, c, a, b, Stage(r, c, 0, 0, |s.cols|, |s.inner|));
  }

  // ----- The operation

  /** The shape of the product of A and M. */
  ghost function ShapeOf(A: SparseBlockMatrix, M: SparseBlockMatrix): Shape {
    Shape(A.rowBlockIndices, A.colBlockIndices, M.colBlockIndices)
  }

  /** The layouts fit, and dest owns its blocks and is neither factor. */
  ghost predicate Multipliable(A: SparseBlockMatrix, dest: SparseBlockMatrix, M: SparseBlockMatrix)
    reads A, dest, M
  {
    && A.Valid() && M.Valid() && dest.Valid() && dest != A && dest != M && dest.hasStorage
    && dest.rowBlockIndices == A.rowBlockIndices && dest.colBlockIndices == M.colBlockIndices
    && A.colBlockIndices == M.rowBlockIndices
  }

  method GrowBlock(A: SparseBlockMatrix, dest: SparseBlockMatrix, M: SparseBlockMatrix, r: nat, c: nat, B: Matrix)
    requires Multipliable(A, dest, M) && r < |dest.rowBlockIndices| && c < |dest.colBlockIndices|
    modifies dest
    ensures Multipliable(A, dest, M)
    ensures Grown(ShapeOf(A, M), old(dest.blockCols), dest.blockCols, r, c, B)
  {
    ghost var mid := dest.blockCols;
    var _ := dest.Block(r, c, true);
    dest.AddTo(r, c, B);
  }

  lemma BlocksInPlace(A: SparseBlockMatrix, dest: SparseBlockMatrix, M: SparseBlockMatrix, r: nat, k: nat, c: nat)
    requires Multipliable(A, dest, M) && k < |A.blockCols| && c < |M.blockCols| && r in A.blockCols[k] && k in M.blockCols[c]
    ensures Ordered(ShapeOf(A, M)) && r < |dest.rowBlockIndices| && c < |dest.colBlockIndices|
    ensures k < |A.colBlockIndices| && ShapeOf(A, M).inner == A.colBlockIndices
    ensures Share(ShapeOf(A, M), A.blockCols, M.blockCols, r, k, c) == MatMul(Dim(A.colBlockIndices, k), A.blockCols[k][r], M.blockCols[c][k])
  {
  }

  method MultiplyBlock(A: SparseBlockMatrix, dest: SparseBlockMatrix, M: SparseBlockMatrix, r: nat, k: nat, c: nat,
                       ghost before: BlockColumns)
    requires Multipliable(A, dest, M) && k < |A.blockCols| && c < |M.blockCols| && r in A.blockCols[k] && k in M.blockCols[c]
    requires Accumulated(ShapeOf(A, M), A.blockCols, M.blockCols, before, dest.blockCols, r, k, c)
    modifies dest
    ensures Multipliable(A, dest, M)
    ensures Accumulated(ShapeOf(A, M), A.blockCols, M.blockCols, before, dest.blockCols, r + 1, k, c)
  {
    hide *;
    MultipliableApart(A, dest, M);
    ghost var mid, theA, theM := dest.blockCols, A.blockCols, M.blockCols;
    BlocksInPlace(A, dest, M, r, k, c);
    GrowBlock(A, dest, M, r, c, MatMul(Dim(A.colBlockIndices, k), A.blockCols[k][r], M.blockCols[c][k]));
    AddBlock(ShapeOf(A, M), theA, theM, before, mid, dest.blockCols, r, k, c);
  }

  lemma MultipliableApart(A: SparseBlockMatrix, dest: SparseBlockMatrix, M: SparseBlockMatrix)
    requires Multipliable(A, dest, M)
    ensures dest != A && dest != M && Ordered(ShapeOf(A, M))
    ensures |A.blockCols| == |ShapeOf(A, M).inner| && |M.blockCols| == |ShapeOf(A, M).cols|
    ensures ShapeOf(A, M).rows == A.rowBlockIndices && ShapeOf(A, M).inner == M.rowBlockIndices
  {
  }

  /** Block (k, c) of M meets the blocks of column k of A from the top. */
  method MultiplyColumn(A: SparseBlockMatrix, dest: SparseBlockMatrix, M: SparseBlockMatrix, k: nat, c: nat,
                        ghost before: BlockColumns)
    requires Multipliable(A, dest, M) && k < |A.blockCols| && c < |M.blockCols| && k in M.blockCols[c]
    requires Accumulated(ShapeOf(A, M), A.blockCols, M.blockCols, before, dest.blockCols, 0, k, c)
    modifies dest
    ensures Multipliable(A, dest, M)
    ensures Accumulated(ShapeOf(A, M), A.blockCols, M.blockCols, before, dest.blockCols, 0, k + 1, c)
  {
    hide *;
    MultipliableApart(A, dest, M);
    ghost var s, theA, theM := ShapeOf(A, M), A.blockCols, M.blockCols;
    for r := 0 to |A.rowBlockIndices|
      invariant Multipliable(A, dest, M)
      invariant Accumulated(s, theA, theM, before, dest.blockCols, r, k, c)
    {
      if r in A.blockCols[k] {
        MultiplyBlock(A, dest, M, r, k, c, before);
      } else {
        SkipBlock(s, theA, theM, before, dest.blockCols, r, k, c);
      }
    }
    NextInner(s, theA, theM, before, dest.blockCols, k, c);
  }

  method MultiplyInto(A: SparseBlockMatrix, dest: SparseBlockMatrix, M: SparseBlockMatrix)
    requires Multipliable(A, dest, M)
    modifies dest
    ensures Multipliable(A, dest, M)
    ensures Accumulated(ShapeOf(A, M), A.blockCols, M.blockCols, old(dest.blockCols), dest.blockCols, 0, 0, |M.blockCols|)
  {
    hide *;
    MultipliableApart(A, dest, M);
    ghost var s, theA, theM, before := ShapeOf(A, M), A.blockCols, M.blockCols, dest.blockCols;
    StartAccumulated(s, theA, theM, before);
    for c := 0 to |M.blockCols|
      invariant Multipliable(A, dest, M)
      invariant Accumulated(s, theA, theM, before, dest.blockCols, 0, 0, c)
    {
      for k := 0 to |M.rowBlockIndices|
        invariant Multipliable(A, dest, M)
        invariant Accumulated(s, theA, theM, before, dest.blockCols, 0, k, c)
      {
        if k in M.blockCols[c] {
          MultiplyColumn(A, dest, M, k, c, before);
        } else {
          SkipRows(s, theA, theM, before, dest.blockCols, |s.rows|, k, c);
          NextInner(s, theA, theM, before, dest.blockCols, k, c);
        }
      }
      NextColumn(s, theA, theM, before, dest.blockCols, c);
    }
  }

  /**
   dest += A M, into a new matrix if none is given. The product is added to what dest already holds, so it
   is the product itself only for a dest that is zero.
   */
  method Multiply(A: SparseBlockMatrix, dest0: SparseBlockMatrix?, M: SparseBlockMatrix) returns (ok: bool,
                  dest: SparseBlockMatrix?)
    requires A.Valid() && M.Valid()
    requires dest0 != null ==> dest0.Valid() && dest0 != A && dest0 != M
    requires dest0 != null && dest0.hasStorage && A.colBlockIndices == M.rowBlockIndices ==>
      dest0.rowBlockIndices == A.rowBlockIndices && dest0.colBlockIndices == M.colBlockIndices
    modifies dest0
    ensures ok <==> A.colBlockIndices == M.rowBlockIndices && (dest0 == null || dest0.hasStorage)
    ensures !ok ==> dest == dest0 && (dest0 != null ==> dest0.blockCols == old(dest0.blockCols))
    ensures ok ==> dest != null && dest.Valid() && dest.rowBlockIndices == A.rowBlockIndices && dest.colBlockIndices == M.colBlockIndices
    ensures ok ==> if dest0 == null then fresh(dest) else dest == dest0
    ensures ok ==> forall i, j :: 0 <= i < Size(A.rowBlockIndices) && 0 <= j < Size(M.colBlockIndices) ==>
      dest.AsDense()(i, j) == (if dest0 == null then 0.0 else old(dest0.AsDense()(i, j)))
        + MatMul(Size(A.colBlockIndices), A.AsDense(), M.AsDense())(i, j)
  {
    hide Accumulated, Monotone;
    dest := dest0;
    if A.colBlockIndices != M.rowBlockIndices {
      return false, dest;
    }
    if dest == null {
      dest := new SparseBlockMatrix(A.rowBlockIndices, M.colBlockIndices, true);
    }
    if !dest.hasStorage {
      return false, dest;
    }
    ghost var s, before := ShapeOf(A, M), dest.blockCols;
    StartAccumulated(s, A.blockCols, M.blockCols, before);
    MultiplyInto(A, dest, M);
    forall i, j | 0 <= i < Size(A.rowBlockIndices) && 0 <= j < Size(M.colBlockIndices)
      ensures dest.AsDense()(i, j) == Entry(s.rows, s.cols, before, i, j) + MatMul(Size(A.colBlockIndices), A.AsDense(), M.AsDense())(i, j)
    {
      FinishAccumulated(s, A.blockCols, M.blockCols, before, dest.blockCols, i, j);
    }
    return true, dest;
  }
}
