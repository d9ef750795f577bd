/** Marginal covariances of chosen pairs of blocks, collected in a block-sparse matrix. */
module SparseCovariance {
  import opened LinearAlgebra
  import opened BlockLayout
  import opened SparseBlocks
  import opened SparseBlockAlgebra
  import opened SchurComplement
  import opened MarginalCovariance

  /** A requested block, by block row and block column. */
  datatype Pair = Pair(row: nat, col: nat)

  ghost predicate Requests(mcc: MarginalCovarianceCholesky, ends: seq<nat>, pairs: seq<Pair>)
    reads mcc`factor
  {
    && Monotone(ends) && Size(ends) <= mcc.factor.n
    && forall k :: 0 <= k < |pairs| ==> pairs[k].row < |ends| && pairs[k].col < |ends|
  }

  /** The entry of the factor's inverse behind row i and column j. */
  ghost function WantedIn(order: Reordering, i: int, j: int): MatrixElem {
    Upper(PlaceIn(order, i), PlaceIn(order, j))
  }

  lemma WantedIsIn(mcc: MarginalCovarianceCholesky, i: int, j: int)
    requires mcc.Valid() && 0 <= i < mcc.factor.n && 0 <= j < mcc.factor.n
    ensures mcc.Wanted(i, j) == WantedIn(mcc.order, i, j) && 0 <= mcc.Wanted(i, j).r <= mcc.Wanted(i, j).c < mcc.factor.n
  {
  }

  /** Row i of the columns from lo to hi is in the list. */
  ghost predicate RowCollected(order: Reordering, i: int, lo: int, hi: int, elems: seq<MatrixElem>) {
    forall j :: lo <= j < hi ==> WantedIn(order, i, j) in elems
  }

  /** Every entry of block p is in the list. */
  ghost predicate Collected(order: Reordering, ends: seq<nat>, p: Pair, elems: seq<MatrixElem>) {
    forall i, j :: Within(ends, p.row, i) && Within(ends, p.col, j) ==> WantedIn(order, i, j) in elems
  }

  ghost predicate InRange(n: int, elems: seq<MatrixElem>) {
    forall e :: e in elems ==> 0 <= e.r <= e.c < n
  }

  method CollectRow(mcc: MarginalCovarianceCholesky, i: int, lo: nat, hi: nat,
                    before: seq<MatrixElem>) returns (elems: seq<MatrixElem>)
    requires mcc.Valid() && 0 <= i < mcc.factor.n && lo <= hi <= mcc.factor.n && InRange(mcc.factor.n, before)
    ensures InRange(mcc.factor.n, elems) && before <= elems && RowCollected(mcc.order, i, lo, hi, elems)
  {
    hide WantedIn;
    elems := before;
    for j := lo to hi
      invariant InRange(mcc.factor.n, elems) && before <= elems && RowCollected(mcc.order, i, lo, j, elems)
    {
      WantedIsIn(mcc, i, j);
      elems := elems + [mcc.Wanted(i, j)];
    }
  }

  lemma BlockFits(mcc: MarginalCovarianceCholesky, ends: seq<nat>, b: nat)
    requires Monotone(ends) && Size(ends) <= mcc.factor.n && b < |ends|
    ensures Base(ends, b) + Dim(ends, b) == ends[b] <= mcc.factor.n
  {
    BaseMonotone(ends, b, b + 1);
    BaseMonotone(ends, b + 1, |ends|);
  }

  method CollectPair(mcc: MarginalCovarianceCholesky, ends: seq<nat>, p: Pair,
                     before: seq<MatrixElem>) returns (elems: seq<MatrixElem>)
    requires mcc.Valid() && Monotone(ends) && Size(ends) <= mcc.factor.n && p.row < |ends| && p.col < |ends|
    requires InRange(mcc.factor.n, before)
    ensures InRange(mcc.factor.n, elems) && Collected(mcc.order, ends, p, elems) && before <= elems
  {
    hide WantedIn, RowCollected, Monotone, InRange, PlaceIn;
    BlockFits(mcc, ends, p.row);
    BlockFits(mcc, ends, p.col);
    var rowBase, colBase := Base(ends, p.row), Base(ends, p.col);
    var colEnd := colBase + Dim(ends, p.col);
    elems := before;
    for i := rowBase to rowBase + Dim(ends, p.row)
      invariant InRange(mcc.factor.n, elems) && before <= elems
      invariant forall k :: rowBase <= k < i ==> RowCollected(mcc.order, k, colBase, colEnd, elems)
    {
      ghost var last := elems;
      elems := CollectRow(mcc, i, colBase, colEnd, elems);
      forall k | rowBase <= k < i ensures RowCollected(mcc.order, k, colBase, colEnd, elems) {
        RowStays(mcc.order, k, colBase, colEnd, last, elems);
      }
    }
    forall i, j | Within(ends, p.row, i) && Within(ends, p.col, j) ensures WantedIn(mcc.order, i, j) in elems {
      RowHas(mcc.order, i, colBase, colEnd, elems, j);
    }
  }

  lemma RowStays(order: Reordering, i: int, lo: int, hi: int, before: seq<MatrixElem>, after: seq<MatrixElem>)
    requires RowCollected(order, i, lo, hi, before) && before <= after
    ensures RowCollected(order, i, lo, hi, after)
  {
    hide WantedIn;
  }

  lemma RowHas(order: Reordering, i: int, lo: int, hi: int, elems: seq<MatrixElem>, j: int)
    requires RowCollected(order, i, lo, hi, elems) && lo <= j < hi
    ensures WantedIn(order, i, j) in elems
  {
  }

  /** The blocks of the matrix are those of the pairs before position k. */
  ghost predicate Allocated(cols: BlockColumns, pairs: seq<Pair>, k: nat) {
    forall r: nat, c: nat :: HasBlock(cols, r, c) <==> Pair(r, c) in pairs[..if k <= |pairs| then k else 0]
  }

  method Collect(mcc: MarginalCovarianceCholesky, ends: seq<nat>, pairs: seq<Pair>,
                 spinv: SparseBlockMatrix) returns (elems: seq<MatrixElem>)
    requires mcc.Valid() && Requests(mcc, ends, pairs)
    requires spinv.Valid() && spinv.rowBlockIndices == ends && spinv.colBlockIndices == ends && Allocated(spinv.blockCols, pairs, 0)
    modifies spinv
    ensures spinv.Valid() && Allocated(spinv.blockCols, pairs, |pairs|)
    ensures InRange(mcc.factor.n, elems) && forall k :: 0 <= k < |pairs| ==> Collected(mcc.order, ends, pairs[k], elems)
  {
    elems := [];
    hide Collected, InRange;
    NoneInRange(mcc.factor.n);
    for i := 0 to |pairs|
      invariant mcc.Valid() && spinv.Valid() && Allocated(spinv.blockCols, pairs, i)
      invariant InRange(mcc.factor.n, elems) && forall k :: 0 <= k < i ==> Collected(mcc.order, ends, pairs[k], elems)
    {
      var p, last := pairs[i], elems;
      var _ := spinv.Block(p.row, p.col, true);
      assert pairs[..i + 1] == pairs[..i] + [p];
      elems := CollectPair(mcc, ends, p, elems);
      forall k | 0 <= k < i ensures Collected(mcc.order, ends, pairs[k], elems) {
        CollectedStays(mcc.order, ends, pairs[k], last, elems);
      }
    }
  }

  lemma NoneInRange(n: int)
    ensures InRange(n, [])
  {
  }

  lemma CollectedStays(order: Reordering, ends: seq<nat>, p: Pair, before: seq<MatrixElem>, after: seq<MatrixElem>)
    requires Collected(order, ends, p, before) && before <= after
    ensures Collected(order, ends, p, after)
  {
    hide WantedIn, Within;
  }

  function WithEntry(B: Matrix, a: int, b: int, x: real): Matrix {
    (i, j) => if i == a && j == b then x else B(i, j)
  }

  /** Every entry of block p has been computed. */
  ghost predicate AllKnown(mcc: MarginalCovarianceCholesky, ends: seq<nat>, p: Pair)
    reads mcc
  {
    forall i, j :: Within(ends, p.row, i) && Within(ends, p.col, j) ==> mcc.Known(mcc.Wanted(i, j))
  }

  /** The block of the marginal covariance at p. */
  ghost predicate IsMarginal(mcc: MarginalCovarianceCholesky, ends: seq<nat>, p: Pair, B: Matrix)
    reads mcc
  {
    forall i, j :: Within(ends, p.row, i) && Within(ends, p.col, j) ==>
      B(i - Base(ends, p.row), j - Base(ends, p.col)) == mcc.Marginal(i, j)
  }

  /** The first hi entries of row a of the block whose corner is given. */
  ghost predicate RowMarginal(mcc: MarginalCovarianceCholesky, rowBase: int, colBase: int, hi: int, B: Matrix, a: int)
    reads mcc
  {
    forall b :: 0 <= b < hi ==> B(a, b) == mcc.Marginal(rowBase + a, colBase + b)
  }

  ghost predicate RowIsKnown(mcc: MarginalCovarianceCholesky, i: int, lo: int, hi: int)
    reads mcc
  {
    forall j :: lo <= j < hi ==> mcc.Known(mcc.Wanted(i, j))
  }

  method FillRow(mcc: MarginalCovarianceCholesky, rowBase: nat, colBase: nat, cols: nat, block: Matrix,
                 a: nat) returns (B: Matrix)
    requires mcc.Valid() && rowBase + a < mcc.factor.n && colBase + cols <= mcc.factor.n
    requires RowIsKnown(mcc, rowBase + a, colBase, colBase + cols)
    ensures RowMarginal(mcc, rowBase, colBase, cols, B, a) && forall a', b :: a' != a ==> B(a', b) == block(a', b)
  {
    B := block;
    var i := rowBase + a;
    for iCol := 0 to cols
      invariant RowMarginal(mcc, rowBase, colBase, iCol, B, a) && forall a', b :: a' != a ==> B(a', b) == block(a', b)
    {
      var at := colBase + iCol;
      assert mcc.Known(mcc.Wanted(i, at));
      B := WithEntry(B, a, iCol, mcc.Lookup(i, at));
    }
  }

  lemma RowKnown(mcc: MarginalCovarianceCholesky, ends: seq<nat>, p: Pair, i: int)
    requires AllKnown(mcc, ends, p) && Within(ends, p.row, i) && p.col < |ends|
    ensures RowIsKnown(mcc, i, Base(ends, p.col), ends[p.col])
  {
  }

  method FillBlock(mcc: MarginalCovarianceCholesky, ends: seq<nat>, p: Pair, block: Matrix) returns (B: Matrix)
    requires mcc.Valid() && Monotone(ends) && Size(ends) <= mcc.factor.n && p.row < |ends| && p.col < |ends| && AllKnown(mcc, ends, p)
    ensures IsMarginal(mcc, ends, p, B)
  {
    hide AllKnown, RowMarginal, Monotone, IsMarginal, RowIsKnown;
    BlockFits(mcc, ends, p.row);
    BlockFits(mcc, ends, p.col);
    var rowBase, colBase := Base(ends, p.row), Base(ends, p.col);
    var rows, cols := Dim(ends, p.row), Dim(ends, p.col);
    B := block;
    for iRow := 0 to rows
      invariant forall a :: 0 <= a < iRow ==> RowMarginal(mcc, rowBase, colBase, cols, B, a)
    {
      ghost var last := B;
      RowKnown(mcc, ends, p, rowBase + iRow);
      B := FillRow(mcc, rowBase, colBase, cols, B, iRow);
      forall a | 0 <= a < iRow ensures RowMarginal(mcc, rowBase, colBase, cols, B, a) {
        RowUntouched(mcc, rowBase, colBase, cols, last, B, a);
      }
    }
    RowsAreMarginal(mcc, ends, p, B);
  }

  lemma RowUntouched(mcc: MarginalCovarianceCholesky, rowBase: int, colBase: int, hi: int, before: Matrix,
                     after: Matrix, a: int)
    requires RowMarginal(mcc, rowBase, colBase, hi, before, a) && forall b :: before(a, b) == after(a, b)
    ensures RowMarginal(mcc, rowBase, colBase, hi, after, a)
  {
  }

  lemma RowsAreMarginal(mcc: MarginalCovarianceCholesky, ends: seq<nat>, p: Pair, B: Matrix)
    requires forall a :: 0 <= a < Dim(ends, p.row) ==>
      RowMarginal(mcc, Base(ends, p.row), Base(ends, p.col), Dim(ends, p.col), B, a)
    ensures IsMarginal(mcc, ends, p, B)
  {
    forall i, j | Within(ends, p.row, i) && Within(ends, p.col, j)
      ensures B(i - Base(ends, p.row), j - Base(ends, p.col)) == mcc.Marginal(i, j)
    {
      var a, b := i - Base(ends, p.row), j - Base(ends, p.col);
      assert RowMarginal(mcc, Base(ends, p.row), Base(ends, p.col), Dim(ends, p.col), B, a);
      assert j == Base(ends, p.col) + b;
    }
  }

  /** Block (r, c) of the matrix holds its marginal covariance. */
  ghost predicate Holds(mcc: MarginalCovarianceCholesky, ends: seq<nat>, cols: BlockColumns, p: Pair)
    reads mcc
  {
    HasBlock(cols, p.row, p.col) && IsMarginal(mcc, ends, p, cols[p.col][p.row])
  }

  method WritePairs(mcc: MarginalCovarianceCholesky, ends: seq<nat>, pairs: seq<Pair>, spinv: SparseBlockMatrix)
    requires mcc.Valid() && Requests(mcc, ends, pairs) && forall k :: 0 <= k < |pairs| ==> AllKnown(mcc, ends, pairs[k])
    requires spinv.Valid() && spinv.rowBlockIndices == ends && spinv.colBlockIndices == ends && Allocated(spinv.blockCols, pairs, |pairs|)
    modifies spinv
    ensures spinv.Valid() && Allocated(spinv.blockCols, pairs, |pairs|)
    ensures forall k :: 0 <= k < |pairs| ==> Holds(mcc, ends, spinv.blockCols, pairs[k])
  {
    hide IsMarginal, AllKnown;
    assert pairs[..|pairs|] == pairs;
    for i := 0 to |pairs|
      invariant mcc.Valid() && spinv.Valid() && Allocated(spinv.blockCols, pairs, |pairs|)
      invariant forall k :: 0 <= k < |pairs| ==> AllKnown(mcc, ends, pairs[k])
      invariant forall k :: 0 <= k < i ==> Holds(mcc, ends, spinv.blockCols, pairs[k])
    {
      var p := pairs[i];
      assert HasBlock(spinv.blockCols, p.row, p.col);
      var B := FillBlock(mcc, ends, p, spinv.blockCols[p.col][p.row]);
      ghost var before := spinv.blockCols;
      spinv.SetBlock(p.row, p.col, B);
      forall k | 0 <= k < i ensures Holds(mcc, ends, spinv.blockCols, pairs[k]) {
        assert Holds(mcc, ends, before, pairs[k]);
      }
    }
  }

  /**
   The requested blocks of the marginal covariance, and no others, as a block-sparse matrix: the blocks of the
   inverse of any matrix that the factor belongs to. Whatever was computed for an earlier factor is forgotten first.
   */
  method ComputeSparseCovariance(mcc: MarginalCovarianceCholesky, ends: seq<nat>,
                                 pairs: seq<Pair>) returns (spinv: SparseBlockMatrix)
    requires mcc.HasFactor() && Requests(mcc, ends, pairs)
    modifies mcc`lookup
    ensures mcc.Valid() && fresh(spinv) && spinv.Valid() && spinv.hasStorage
    ensures spinv.rowBlockIndices == ends && spinv.colBlockIndices == ends
    ensures forall r: nat, c: nat :: HasBlock(spinv.blockCols, r, c) <==> Pair(r, c) in pairs
    ensures forall k, i, j :: 0 <= k < |pairs| && Within(ends, pairs[k].row, i) && Within(ends, pairs[k].col, j) ==>
      spinv.AsDense()(i, j) == mcc.Marginal(i, j)
    ensures forall k, i, j, H: Matrix, X: Matrix ::
      (0 <= k < |pairs| && Within(ends, pairs[k].row, i) && Within(ends, pairs[k].col, j)
       && IsFactorOf(mcc.factor, mcc.order, H) && RightInverse(mcc.factor.n, H, X)) ==> spinv.AsDense()(i, j) == X(i, j)
  {
    hide IsFactorOf, RightInverse, Covariance;
    hide IsMarginal, Collected, AllKnown, InRange, Within, Holds;
    spinv := new SparseBlockMatrix(ends, ends, true);
    mcc.lookup := map[];
    var elems := Collect(mcc, ends, pairs, spinv);
    var sorted := SortElems(elems);
    SameElements(mcc.factor.n, elems, sorted);
    mcc.ComputeEntries(sorted);
    forall k | 0 <= k < |pairs| ensures AllKnown(mcc, ends, pairs[k]) {
      PairKnown(mcc, ends, pairs[k], elems);
    }
    WritePairs(mcc, ends, pairs, spinv);
    assert pairs[..|pairs|] == pairs;
    forall k, i, j | 0 <= k < |pairs| && Within(ends, pairs[k].row, i) && Within(ends, pairs[k].col, j)
      ensures spinv.AsDense()(i, j) == mcc.Marginal(i, j)
    {
      DenseMarginal(mcc, ends, spinv.blockCols, pairs[k], i, j);
    }
    forall k, i, j, H: Matrix, X: Matrix
      | 0 <= k < |pairs| && Within(ends, pairs[k].row, i) && Within(ends, pairs[k].col, j)
        && IsFactorOf(mcc.factor, mcc.order, H) && RightInverse(mcc.factor.n, H, X)
      ensures spinv.AsDense()(i, j) == X(i, j)
    {
      MarginalOfInverse(mcc, ends, pairs[k], H, X, i, j);
    }
  }

  lemma MarginalOfInverse(mcc: MarginalCovarianceCholesky, ends: seq<nat>, p: Pair, H: Matrix, X: Matrix, i: int, j: int)
    requires mcc.Valid() && Monotone(ends) && Size(ends) <= mcc.factor.n && Within(ends, p.row, i) && Within(ends, p.col, j)
    requires IsFactorOf(mcc.factor, mcc.order, H) && RightInverse(mcc.factor.n, H, X)
    ensures mcc.Marginal(i, j) == X(i, j)
  {
    hide IsFactorOf, RightInverse, Covariance;
    BlockFits(mcc, ends, p.row);
    BlockFits(mcc, ends, p.col);
    CovarianceIsTheInverse(mcc.factor, mcc.order, H, X, i, j);
  }

  lemma SameElements(n: int, elems: seq<MatrixElem>, sorted: seq<MatrixElem>)
    requires multiset(elems) == multiset(sorted) && InRange(n, elems)
    ensures (forall e :: e in sorted <==> e in elems) && forall e :: e in sorted ==> 0 <= e.r <= e.c < n
  {
    forall e ensures e in sorted <==> e in elems {
      assert e in multiset(sorted) <==> e in multiset(elems);
    }
  }

  lemma PairKnown(mcc: MarginalCovarianceCholesky, ends: seq<nat>, p: Pair, elems: seq<MatrixElem>)
    requires mcc.Valid() && Monotone(ends) && Size(ends) <= mcc.factor.n && Collected(mcc.order, ends, p, elems)
    requires forall e :: e in elems ==> mcc.Known(e)
    ensures AllKnown(mcc, ends, p)
  {
    forall i, j | Within(ends, p.row, i) && Within(ends, p.col, j) ensures mcc.Known(mcc.Wanted(i, j)) {
      BlockFits(mcc, ends, p.row);
      BlockFits(mcc, ends, p.col);
      WantedIsIn(mcc, i, j);
    }
  }

  lemma DenseMarginal(mcc: MarginalCovarianceCholesky, ends: seq<nat>, cols: BlockColumns, p: Pair, i: int, j: int)
    requires Monotone(ends) && Holds(mcc, ends, cols, p) && Within(ends, p.row, i) && Within(ends, p.col, j)
    ensures SparseBlocks.Entry(ends, ends, cols, i, j) == mcc.Marginal(i, j)
  {
    hide Covariance, BlockOf;
    EntryInBlock(ends, ends, cols, p.row, p.col, i, j);
  }
}
