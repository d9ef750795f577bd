/** Solving the block system by eliminating the landmarks. */
module BlockSolver {
  import opened Sums
  import opened LinearAlgebra
  import opened BlockLayout
  import opened SparseBlocks
  import opened SparseBlockAlgebra
  import opened CompressedViews
  import opened SchurComplement
  import opened DiagonalBlocks
  import opened SchurElimination
  import opened ViewProducts
  import opened QuadraticModel
  import opened DampedNewton
  import opened NormalEquations

  /** Inverts a matrix of the given size. */
  type Inverter = (nat, Matrix) -> Matrix

  /** Each block column of hll holds its diagonal block, and nothing else. */
  ghost predicate DiagonalOnly(hll: BlockColumns) {
    forall l :: 0 <= l < |hll| ==> l in hll[l] && forall r :: r in hll[l] ==> r == l
  }

  /** The inverter succeeds on every diagonal block. */
  ghost predicate Inverts(ends: seq<nat>, hll: BlockColumns, inverse: Inverter) {
    && |hll| == |ends| && DiagonalOnly(hll)
    && forall l :: 0 <= l < |hll| ==> IsInverse(Dim(ends, l), hll[l][l], inverse(Dim(ends, l), hll[l][l]))
  }

  ghost predicate Invertible(ends: seq<nat>, hll: BlockColumns, inverse: Inverter) {
    Inverts(ends, hll, inverse) && forall l :: 0 <= l < |hll| ==> SymmetricMatrix(Dim(ends, l), hll[l][l])
  }

  ghost function Inverses(ends: seq<nat>, hll: BlockColumns, inverse: Inverter): (r: seq<Matrix>)
    requires |hll| == |ends| && DiagonalOnly(hll)
    ensures |r| == |ends| && forall l :: 0 <= l < |ends| ==> r[l] == inverse(Dim(ends, l), hll[l][l])
  {
    seq<Matrix>(|ends|, l requires 0 <= l < |ends| => inverse(Dim(ends, l), hll[l][l]))
  }

  /** Every pair of poses that some landmark sees has its block in the view of the Schur matrix. */
  ghost predicate PatternComplete(view: seq<Column>, hpl: BlockColumns) {
    forall l, r1: nat, r2: nat :: 0 <= l < |hpl| && r1 in hpl[l] && r2 in hpl[l] && r1 <= r2 && r1 < |view| ==> HasRow(view[r1], r2)
  }

  ghost predicate EmptyColumns(cols: BlockColumns) {
    forall c, r: nat :: 0 <= c < |cols| ==> r !in cols[c]
  }

  // ----- Damping the diagonal blocks

  function DiagonalOf(M: Matrix): Vector {
    k => M(k, k)
  }

  function ReplaceDiagonal(M: Matrix, d: Vector): Matrix {
    (i, j) => if i == j then d(i) else M(i, j)
  }

  function ScaledIdentity(damp: real): Matrix {
    (i, j) => if i == j then damp else 0.0
  }

  ghost predicate DiagonalsPresent(cols: BlockColumns) {
    forall i: nat :: i < |cols| ==> i in cols[i]
  }

  /** The first k diagonal blocks have lambda added to their diagonals. */
  ghost predicate DiagonalRaised(before: BlockColumns, after: BlockColumns, damp: real, k: nat)
    requires DiagonalsPresent(before)
  {
    |after| == |before| && forall c: nat :: c < |before| ==>
      after[c] == if c < k then before[c][c := PlusMatrix(before[c][c], ScaledIdentity(damp))] else before[c]
  }

  /** The first k diagonal blocks have the diagonals that were saved. */
  ghost predicate DiagonalReplaced(before: BlockColumns, after: BlockColumns, saved: seq<Vector>, k: nat)
    requires DiagonalsPresent(before) && k <= |saved|
  {
    |after| == |before| && forall c: nat :: c < |before| ==>
      after[c] == if c < k then before[c][c := ReplaceDiagonal(before[c][c], saved[c])] else before[c]
  }

  /** The diagonals of all diagonal blocks. */
  ghost predicate AreDiagonals(cols: BlockColumns, saved: seq<Vector>, k: nat)
    requires DiagonalsPresent(cols)
  {
    k <= |saved| && k <= |cols| && forall c: nat :: c < k ==> saved[c] == DiagonalOf(cols[c][c])
  }

  /** Adds lambda to the diagonals of all diagonal blocks, and saves them before if asked to. */
  method RaiseDiagonal(H: SparseBlockMatrix, damp: real, backup: bool, saved: seq<Vector>) returns (saved': seq<Vector>)
    requires H.Valid() && |H.rowBlockIndices| == |H.colBlockIndices| && DiagonalsPresent(H.blockCols)
    modifies H
    ensures H.Valid() && DiagonalRaised(old(H.blockCols), H.blockCols, damp, |H.blockCols|)
    ensures if backup then |saved'| == |H.blockCols| && AreDiagonals(old(H.blockCols), saved', |saved'|) else saved' == saved
  {
    ghost var before := H.blockCols;
    saved' := if backup then [] else saved;
    for i := 0 to |H.colBlockIndices|
      invariant H.Valid() && DiagonalRaised(before, H.blockCols, damp, i)
      invariant if backup then |saved'| == i && AreDiagonals(before, saved', i) else saved' == saved
    {
      if backup {
        saved' := saved' + [DiagonalOf(H.blockCols[i][i])];
      }
      H.AddTo(i, i, ScaledIdentity(damp));
    }
  }

  /** Puts saved diagonals back. */
  method ReplaceDiagonals(H: SparseBlockMatrix, saved: seq<Vector>)
    requires H.Valid() && |H.rowBlockIndices| == |H.colBlockIndices| == |saved| && DiagonalsPresent(H.blockCols)
    modifies H
    ensures H.Valid() && DiagonalReplaced(old(H.blockCols), H.blockCols, saved, |saved|)
  {
    ghost var before := H.blockCols;
    for i := 0 to |saved|
      invariant H.Valid() && DiagonalReplaced(before, H.blockCols, saved, i)
    {
      H.SetBlock(i, i, ReplaceDiagonal(H.blockCols[i][i], saved[i]));
    }
  }

  function ZeroBlocks(n: nat): (blocks: seq<Matrix>)
    ensures |blocks| == n
  {
    seq(n, _ => Zero())
  }

  class BlockSolver {
    const Hpp: SparseBlockMatrix
    const Hschur: SparseBlockMatrix
    const Hpl: SparseBlockMatrix
    const Hll: SparseBlockMatrix
    var HplCCS: seq<Column>
    var HschurTransposedCCS: seq<Column>
    var DInvSchur: seq<Matrix>
    const coefficients: array<real>
    const bschur: array<real>
    const x: array<real>
    const b: array<real>
    var diagonalBackupPose: seq<Vector>
    var diagonalBackupLandmark: seq<Vector>

    /** Empty matrices and vectors for the given layout. */
    constructor (poseEnds: seq<nat>, landmarkEnds: seq<nat>)
      requires Monotone(poseEnds) && Monotone(landmarkEnds)
      ensures Shapes() && Buffers()
      ensures Hpp.rowBlockIndices == poseEnds && Hll.colBlockIndices == landmarkEnds
      ensures HplCCS == [] && HschurTransposedCCS == [] && |DInvSchur| == |landmarkEnds|
      ensures diagonalBackupPose == [] && diagonalBackupLandmark == []
      ensures Hpp.hasStorage && Hpl.hasStorage && Hll.hasStorage && Hschur.hasStorage
      ensures EmptyColumns(Hpp.blockCols) && EmptyColumns(Hpl.blockCols)
      ensures EmptyColumns(Hll.blockCols) && EmptyColumns(Hschur.blockCols)
      ensures fresh(Hpp) && fresh(Hpl) && fresh(Hll) && fresh(Hschur)
      ensures fresh(coefficients) && fresh(bschur) && fresh(x) && fresh(b)
    {
      Hpp := new SparseBlockMatrix(poseEnds, poseEnds, true);
      Hschur := new SparseBlockMatrix(poseEnds, poseEnds, true);
      Hpl := new SparseBlockMatrix(poseEnds, landmarkEnds, true);
      Hll := new SparseBlockMatrix(landmarkEnds, landmarkEnds, true);
      HplCCS, HschurTransposedCCS, DInvSchur := [], [], ZeroBlocks(|landmarkEnds|);
      coefficients := new real[Size(poseEnds) + Size(landmarkEnds)];
      bschur := new real[Size(poseEnds)];
      x := new real[Size(poseEnds) + Size(landmarkEnds)];
      b := new real[Size(poseEnds) + Size(landmarkEnds)];
      diagonalBackupPose, diagonalBackupLandmark := [], [];
    }

    ghost predicate Shapes()
      reads Hpp, Hschur, Hpl, Hll
    {
      && Hpp.Valid() && Hschur.Valid() && Hpl.Valid() && Hll.Valid()
      && Hpp.colBlockIndices == Hpp.rowBlockIndices == Hschur.rowBlockIndices == Hschur.colBlockIndices == Hpl.rowBlockIndices
      && Hll.rowBlockIndices == Hll.colBlockIndices == Hpl.colBlockIndices
      && Hschur != Hpp && Hschur != Hpl && Hschur != Hll && Hpp != Hpl && Hpp != Hll && Hpl != Hll && Hschur.hasStorage
    }

    ghost predicate Buffers() {
      && bschur.Length == Size(Hpp.rowBlockIndices)
      && coefficients.Length == x.Length == b.Length == Size(Hpp.rowBlockIndices) + Size(Hll.colBlockIndices)
      && coefficients != bschur && coefficients != x && coefficients != b && bschur != x && bschur != b && x != b
    }

    /** The views point at blocks that exist, and the Schur view misses none that the elimination needs. */
    ghost predicate Views()
      reads this`HplCCS, this`HschurTransposedCCS, Hschur, Hpl
    {
      && IsView(HplCCS, Hpl.blockCols)
      && IsTransposedView(HschurTransposedCCS, Hschur.blockCols) && |HschurTransposedCCS| == |Hschur.rowBlockIndices|
      && PatternComplete(HschurTransposedCCS, Hpl.blockCols)
    }

    /** Adds lambda to the diagonals of all pose and landmark blocks, saving them first if asked to. */
    method SetLambda(damp: real, backup: bool)
      requires Shapes() && DiagonalsPresent(Hpp.blockCols) && DiagonalsPresent(Hll.blockCols)
      modifies Hpp, Hll, this`diagonalBackupPose, this`diagonalBackupLandmark
      ensures Shapes()
      ensures DiagonalRaised(old(Hpp.blockCols), Hpp.blockCols, damp, |Hpp.blockCols|)
      ensures DiagonalRaised(old(Hll.blockCols), Hll.blockCols, damp, |Hll.blockCols|)
      ensures if backup then
                && |diagonalBackupPose| == |Hpp.blockCols| && AreDiagonals(old(Hpp.blockCols), diagonalBackupPose, |Hpp.blockCols|)
                && |diagonalBackupLandmark| == |Hll.blockCols| && AreDiagonals(old(Hll.blockCols), diagonalBackupLandmark, |Hll.blockCols|)
              else diagonalBackupPose == old(diagonalBackupPose) && diagonalBackupLandmark == old(diagonalBackupLandmark)
    {
      diagonalBackupPose := RaiseDiagonal(Hpp, damp, backup, diagonalBackupPose);
      diagonalBackupLandmark := RaiseDiagonal(Hll, damp, backup, diagonalBackupLandmark);
    }

    /** Puts back the diagonals that were saved. */
    method RestoreDiagonal()
      requires Shapes() && DiagonalsPresent(Hpp.blockCols) && DiagonalsPresent(Hll.blockCols)
      requires |diagonalBackupPose| == |Hpp.blockCols| && |diagonalBackupLandmark| == |Hll.blockCols|
      modifies Hpp, Hll
      ensures Shapes()
      ensures DiagonalReplaced(old(Hpp.blockCols), Hpp.blockCols, diagonalBackupPose, |diagonalBackupPose|)
      ensures DiagonalReplaced(old(Hll.blockCols), Hll.blockCols, diagonalBackupLandmark, |diagonalBackupLandmark|)
    {
      ReplaceDiagonals(Hpp, diagonalBackupPose);
      ReplaceDiagonals(Hll, diagonalBackupLandmark);
    }

    ghost function Elimination(inverse: Inverter): Context
      requires Shapes() && DiagonalOnly(Hll.blockCols)
      reads Hpp, Hschur, Hpl, Hll
    {
      Context(Hpp.rowBlockIndices, Hll.colBlockIndices, Hpp.blockCols, Hpl.blockCols,
              Inverses(Hll.colBlockIndices, Hll.blockCols, inverse))
    }

    /** What an elimination step relies on. */
    ghost predicate Ready(ctx: Context)
      reads this`HplCCS, this`HschurTransposedCCS, Hpp, Hschur, Hpl, Hll
    {
      && Shapes() && Buffers() && Views() && ValidContext(ctx)
      && |HplCCS| == |ctx.dinv| == |ctx.landmarkEnds| && ctx.hpl == Hpl.blockCols
      && ctx.poseEnds == Hpp.rowBlockIndices && ctx.landmarkEnds == Hll.colBlockIndices
    }

    /** One pair of poses: finds the block by scanning forward from start, and subtracts the pair's product. */
    method SubtractPair(l: nat, o: nat, p: nat, start: nat, Dinv: Matrix, ghost ctx: Context) returns (t: nat)
      requires Ready(ctx) && l < |ctx.landmarkEnds| && Dinv == ctx.dinv[l] && o <= p < |HplCCS[l]|
      requires HplCCS[l][o].row < |HschurTransposedCCS| && start < |HschurTransposedCCS[HplCCS[l][o].row]|
      requires forall q :: 0 <= q < start ==> HschurTransposedCCS[HplCCS[l][o].row][q].row < HplCCS[l][p].row
      requires ReducedUpTo(ctx, Hschur.blockCols, l, HplCCS[l][o].row, HplCCS[l][p].row)
      modifies Hschur
      ensures Ready(ctx) && ReducedUpTo(ctx, Hschur.blockCols, l, HplCCS[l][o].row, HplCCS[l][p].row + 1)
      ensures t < |HschurTransposedCCS[HplCCS[l][o].row]| && HschurTransposedCCS[HplCCS[l][o].row][t].row == HplCCS[l][p].row
      ensures forall q :: 0 <= q < t ==> HschurTransposedCCS[HplCCS[l][o].row][q].row < HplCCS[l][p].row
    {
      hide ReducedUpTo, PatternComplete, IsView, Buffers;
      var i1, i2 := HplCCS[l][o].row, HplCCS[l][p].row;
      PairIsSeen(l, o, p);
      t := Advance(HschurTransposedCCS[i1], start, i2);
      TargetIsThere(i1, t);
      var Bi := Hpl.blockCols[HplCCS[l][o].blockCol][HplCCS[l][o].blockRow];
      var Bj := Hpl.blockCols[HplCCS[l][p].blockCol][HplCCS[l][p].blockRow];
      var target := HschurTransposedCCS[i1][t];
      var n := Dim(Hll.colBlockIndices, l);
      var product := MatMul(n, MatMul(n, Bi, Dinv), Transpose(Bj));
      ghost var before := Hschur.blockCols;
      Hschur.AddTo(target.blockRow, target.blockCol, Negated(product));
      SubtractedPair(ctx, before, Hschur.blockCols, l, i1, i2, Bi, Bj);
    }

    lemma ColumnAscends(l: nat)
      requires Shapes() && Views() && l < |HplCCS|
      ensures Ascending(HplCCS[l])
    {
      assert ColumnView(HplCCS[l], Hpl.blockCols, l);
    }

    lemma FirstTarget(r: nat, column: Column, o: nat)
      requires Shapes() && Views() && r < |HschurTransposedCCS| && HasRow(HschurTransposedCCS[r], r)
      ensures |HschurTransposedCCS[r]| > 0
    {
    }

    /** Rows of a landmark's column before entry p that come after entry p - 1 are not seen by the landmark. */
    lemma NotSeen(l: nat, r: nat, p: nat)
      requires Shapes() && Views() && l < |HplCCS| && p <= |HplCCS[l]|
      requires p > 0 ==> HplCCS[l][p - 1].row < r
      requires p < |HplCCS[l]| ==> r < HplCCS[l][p].row
      ensures r !in Hpl.blockCols[l]
    {
      assert ColumnView(HplCCS[l], Hpl.blockCols, l);
      forall q | 0 <= q < |HplCCS[l]| ensures HplCCS[l][q].row != r {
        assert q < p ==> HplCCS[l][q].row <= HplCCS[l][p - 1].row;
        assert p < q ==> HplCCS[l][p].row <= HplCCS[l][q].row;
      }
    }

    lemma SkipToPair(l: nat, o: nat, p: nat, v: nat, ctx: Context)
      requires Ready(ctx) && l < |ctx.landmarkEnds| && o <= p < |HplCCS[l]|
      requires v == (if p == o then HplCCS[l][o].row else HplCCS[l][p - 1].row + 1)
      requires ReducedUpTo(ctx, Hschur.blockCols, l, HplCCS[l][o].row, v)
      ensures v <= HplCCS[l][p].row
      ensures ReducedUpTo(ctx, Hschur.blockCols, l, HplCCS[l][o].row, HplCCS[l][p].row)
    {
      hide ReducedUpTo;
      ColumnAscends(l);
      forall r | v <= r < HplCCS[l][p].row ensures r !in Hpl.blockCols[l] {
        NotSeen(l, r, p);
      }
      SkipPairs(ctx, Hschur.blockCols, l, HplCCS[l][o].row, v, HplCCS[l][o].row, HplCCS[l][p].row);
    }

    lemma SkipRest(l: nat, o: nat, v: nat, ctx: Context)
      requires Ready(ctx) && l < |ctx.landmarkEnds| && o < |HplCCS[l]| && v == HplCCS[l][|HplCCS[l]| - 1].row + 1
      requires ReducedUpTo(ctx, Hschur.blockCols, l, HplCCS[l][o].row, v)
      ensures ReducedUpTo(ctx, Hschur.blockCols, l, HplCCS[l][o].row + 1, 0)
    {
      hide ReducedUpTo;
      ColumnAscends(l);
      forall r: nat | v <= r ensures r !in Hpl.blockCols[l] {
        NotSeen(l, r, |HplCCS[l]|);
      }
      SkipPairs(ctx, Hschur.blockCols, l, HplCCS[l][o].row, v, HplCCS[l][o].row + 1, 0);
    }

    lemma PairIsSeen(l: nat, o: nat, p: nat)
      requires Shapes() && Views() && l < |HplCCS| && o <= p < |HplCCS[l]|
      ensures HplCCS[l][o] == RowBlock(HplCCS[l][o].row, HplCCS[l][o].row, l) && HplCCS[l][o].row in Hpl.blockCols[l]
      ensures HplCCS[l][p] == RowBlock(HplCCS[l][p].row, HplCCS[l][p].row, l) && HplCCS[l][p].row in Hpl.blockCols[l]
      ensures HplCCS[l][o].row <= HplCCS[l][p].row < |Hpp.rowBlockIndices| && HplCCS[l][o].row < |HschurTransposedCCS|
      ensures Ascending(HschurTransposedCCS[HplCCS[l][o].row])
      ensures HasRow(HschurTransposedCCS[HplCCS[l][o].row], HplCCS[l][p].row)
    {
      assert ColumnView(HplCCS[l], Hpl.blockCols, l);
      assert RowView(HschurTransposedCCS[HplCCS[l][o].row], Hschur.blockCols, HplCCS[l][o].row);
    }

    lemma TargetIsThere(r: nat, t: nat)
      requires Shapes() && Views() && r < |HschurTransposedCCS| && t < |HschurTransposedCCS[r]|
      ensures HschurTransposedCCS[r][t] == RowBlock(HschurTransposedCCS[r][t].row, r, HschurTransposedCCS[r][t].row)
      ensures HschurTransposedCCS[r][t].row < |Hschur.blockCols| && r in Hschur.blockCols[HschurTransposedCCS[r][t].row]
    {
      assert RowView(HschurTransposedCCS[r], Hschur.blockCols, r);
    }

    /** One pose of a landmark: its share of the right hand side, and its products with all later poses. */
    method EliminatePose(l: nat, o: nat, Dinv: Matrix, db: Vector, ghost ctx: Context, ghost bl: Vector)
      requires Ready(ctx) && l < |ctx.landmarkEnds| && Dinv == ctx.dinv[l] && o < |HplCCS[l]|
      requires IsLandmarkShare(ctx, bl, l, db)
      requires ReducedUpTo(ctx, Hschur.blockCols, l, HplCCS[l][o].row, HplCCS[l][o].row)
      requires CoefficientsUpTo(ctx, bl, coefficients[..], l, HplCCS[l][o].row)
      modifies Hschur, coefficients
      ensures Ready(ctx)
      ensures ReducedUpTo(ctx, Hschur.blockCols, l, HplCCS[l][o].row + 1, 0)
      ensures CoefficientsUpTo(ctx, bl, coefficients[..], l, HplCCS[l][o].row + 1)
    {
      hide ReducedUpTo, CoefficientsUpTo, Y, Dim, Base, ValidContext, PatternComplete, IsTransposedView, IsView;
      PairIsSeen(l, o, o);
      AddRightHandSide(l, o, db, ctx, bl);
      SubtractPairs(l, o, Dinv, ctx);
    }

    method SubtractPairs(l: nat, o: nat, Dinv: Matrix, ghost ctx: Context)
      requires Ready(ctx) && l < |ctx.landmarkEnds| && Dinv == ctx.dinv[l] && o < |HplCCS[l]|
      requires ReducedUpTo(ctx, Hschur.blockCols, l, HplCCS[l][o].row, HplCCS[l][o].row)
      modifies Hschur
      ensures Ready(ctx) && ReducedUpTo(ctx, Hschur.blockCols, l, HplCCS[l][o].row + 1, 0)
    {
      hide ReducedUpTo, ValidContext, PatternComplete, IsTransposedView, IsView;
      PairIsSeen(l, o, o);
      var column, i1 := HplCCS[l], HplCCS[l][o].row;
      ColumnAscends(l);
      var p := LowerBound(column, i1);
      FirstTarget(i1, column, o);
      LowerBoundAt(column, o, p);
      var t: nat := 0;
      ghost var v := i1;
      while p < |column|
        invariant Ready(ctx) && o <= p <= |column| && t < |HschurTransposedCCS[i1]|
        invariant v == (if p == o then i1 else column[p - 1].row + 1)
        invariant ReducedUpTo(ctx, Hschur.blockCols, l, i1, v)
        invariant forall q :: 0 <= q < t ==> HschurTransposedCCS[i1][q].row < v
        invariant p > o ==> HschurTransposedCCS[i1][t].row < v
      {
        SkipToPair(l, o, p, v, ctx);
        t := SubtractPair(l, o, p, t, Dinv, ctx);
        p, v := p + 1, column[p].row + 1;
      }
      SkipRest(l, o, v, ctx);
    }

    method AddRightHandSide(l: nat, o: nat, db: Vector, ghost ctx: Context, ghost bl: Vector)
      requires Ready(ctx) && l < |ctx.landmarkEnds| && o < |HplCCS[l]|
      requires IsLandmarkShare(ctx, bl, l, db)
      requires CoefficientsUpTo(ctx, bl, coefficients[..], l, HplCCS[l][o].row)
      modifies coefficients
      ensures CoefficientsUpTo(ctx, bl, coefficients[..], l, HplCCS[l][o].row + 1)
    {
      hide CoefficientsUpTo, Y, PatternComplete, IsTransposedView, IsView, ReducedUpTo;
      PairIsSeen(l, o, o);
      var i1 := HplCCS[l][o].row;
      var Bi := Hpl.blockCols[HplCCS[l][o].blockCol][HplCCS[l][o].blockRow];
      var ends := Hpp.rowBlockIndices;
      ghost var before := coefficients[..];
      BaseMonotone(ends, i1, i1 + 1);
      BaseMonotone(ends, i1 + 1, |ends|);
      Axpy(Bi, Dim(ends, i1), Dim(Hll.colBlockIndices, l), db, 0, coefficients, Base(ends, i1));
      forall a ensures MatVec(Dim(Hll.colBlockIndices, l), Bi, FromOffset(db, 0))(a) == PoseShare(ctx, bl, i1, l)(a) {
        SameShare(ctx, bl, l, db, i1, a);
      }
      AddShare(ctx, bl, before, coefficients[..], l, i1);
    }

    /** Eliminates one landmark. */
    method EliminateLandmark(l: nat, inverse: Inverter, ghost ctx: Context, ghost bl: Vector)
      requires Ready(ctx) && l < |ctx.landmarkEnds| && |DInvSchur| == |ctx.landmarkEnds| && DiagonalOnly(Hll.blockCols)
      requires ctx.dinv[l] == inverse(Dim(ctx.landmarkEnds, l), Hll.blockCols[l][l])
      requires IsTail(b[..], Size(ctx.poseEnds), bl, Size(ctx.landmarkEnds))
      requires ReducedUpTo(ctx, Hschur.blockCols, l, 0, 0) && CoefficientsUpTo(ctx, bl, coefficients[..], l, 0)
      modifies Hschur, coefficients, this`DInvSchur
      ensures Ready(ctx) && DInvSchur == old(DInvSchur)[l := ctx.dinv[l]]
      ensures ReducedUpTo(ctx, Hschur.blockCols, l + 1, 0, 0) && CoefficientsUpTo(ctx, bl, coefficients[..], l + 1, 0)
    {
      var D := Hll.blockCols[l][l];
      var n := Dim(Hll.colBlockIndices, l);
      var Dinv := inverse(n, D);
      DInvSchur := DInvSchur[l := Dinv];
      var db := MatVec(n, Dinv, FromOffset(AsVector(b[..]), Size(Hpp.rowBlockIndices) + Base(Hll.colBlockIndices, l)));
      LandmarkShare(ctx, bl, b[..], l);
      EliminatePoses(l, Dinv, db, ctx, bl);
    }

    method EliminatePoses(l: nat, Dinv: Matrix, db: Vector, ghost ctx: Context, ghost bl: Vector)
      requires Ready(ctx) && l < |ctx.landmarkEnds| && Dinv == ctx.dinv[l] && IsLandmarkShare(ctx, bl, l, db)
      requires ReducedUpTo(ctx, Hschur.blockCols, l, 0, 0) && CoefficientsUpTo(ctx, bl, coefficients[..], l, 0)
      modifies Hschur, coefficients
      ensures Ready(ctx)
      ensures ReducedUpTo(ctx, Hschur.blockCols, l + 1, 0, 0) && CoefficientsUpTo(ctx, bl, coefficients[..], l + 1, 0)
    {
      hide *;
      ReadyParts(ctx);
      ghost var u := 0;
      for o := 0 to |HplCCS[l]|
        invariant Ready(ctx) && u == (if o == 0 then 0 else HplCCS[l][o - 1].row + 1)
        invariant ReducedUpTo(ctx, Hschur.blockCols, l, u, 0) && CoefficientsUpTo(ctx, bl, coefficients[..], l, u)
      {
        SkipToPose(l, o, u, ctx, bl);
        EliminatePose(l, o, Dinv, db, ctx, bl);
        ReadyParts(ctx);
        u := HplCCS[l][o].row + 1;
      }
      FinishLandmark(l, u, ctx, bl);
    }

    lemma ReadyParts(ctx: Context)
      requires Ready(ctx)
      ensures |HplCCS| == |ctx.landmarkEnds|
    {
    }

    lemma SkipToPose(l: nat, o: nat, u: nat, ctx: Context, bl: Vector)
      requires Ready(ctx) && l < |ctx.landmarkEnds| && o < |HplCCS[l]| && u == (if o == 0 then 0 else HplCCS[l][o - 1].row + 1)
      requires ReducedUpTo(ctx, Hschur.blockCols, l, u, 0) && CoefficientsUpTo(ctx, bl, coefficients[..], l, u)
      ensures ReducedUpTo(ctx, Hschur.blockCols, l, HplCCS[l][o].row, HplCCS[l][o].row)
      ensures CoefficientsUpTo(ctx, bl, coefficients[..], l, HplCCS[l][o].row)
    {
      hide ReducedUpTo, CoefficientsUpTo;
      var row := HplCCS[l][o].row;
      ColumnAscends(l);
      assert u <= row;
      forall r | u <= r < row ensures r !in Hpl.blockCols[l] {
        NotSeen(l, r, o);
      }
      SkipPairs(ctx, Hschur.blockCols, l, u, 0, row, row);
      SkipUnseen(ctx, bl, coefficients[..], l, u, row);
    }

    lemma FinishLandmark(l: nat, u: nat, ctx: Context, bl: Vector)
      requires Ready(ctx) && l < |ctx.landmarkEnds|
      requires u == (if |HplCCS[l]| == 0 then 0 else HplCCS[l][|HplCCS[l]| - 1].row + 1)
      requires ReducedUpTo(ctx, Hschur.blockCols, l, u, 0) && CoefficientsUpTo(ctx, bl, coefficients[..], l, u)
      ensures ReducedUpTo(ctx, Hschur.blockCols, l + 1, 0, 0) && CoefficientsUpTo(ctx, bl, coefficients[..], l + 1, 0)
    {
      hide ReducedUpTo, CoefficientsUpTo;
      forall r: nat | u <= r ensures r !in Hpl.blockCols[l] {
        NotSeen(l, r, |HplCCS[l]|);
      }
      var end := if u < |ctx.poseEnds| then |ctx.poseEnds| else u;
      SkipPairs(ctx, Hschur.blockCols, l, u, 0, end, 0);
      SkipUnseen(ctx, bl, coefficients[..], l, u, end);
      NextLandmark(ctx, Hschur.blockCols, bl, coefficients[..], l, end);
    }

    /** The Schur matrix starts as a copy of the pose blocks, within a pattern that may be larger. */
    method ResetSchur(ghost ctx: Context)
      requires Ready(ctx) && ctx.hpp == Hpp.blockCols
      modifies Hschur
      ensures Ready(ctx) && ReducedUpTo(ctx, Hschur.blockCols, 0, 0, 0)
    {
      ghost var pattern := Hschur.blockCols;
      Hschur.Clear(false);
      ghost var cleared := Hschur.blockCols;
      var ok := Add(Hpp, Hschur);
      StartReduced(ctx, pattern, cleared, Hschur.blockCols);
      KeepsViews(HschurTransposedCCS, pattern, Hschur.blockCols);
    }

    method ResetCoefficients(ghost ctx: Context, ghost bl: Vector)
      requires Ready(ctx)
      modifies coefficients
      ensures CoefficientsUpTo(ctx, bl, coefficients[..], 0, 0)
    {
      for i := 0 to Size(Hpp.rowBlockIndices)
        invariant forall k :: 0 <= k < i ==> coefficients[k] == 0.0
      {
        coefficients[i] := 0.0;
      }
      StartCoefficients(ctx, bl, coefficients[..]);
    }

    /** Builds the reduced system: Hschur, and in bschur its right hand side. */
    method Reduce(inverse: Inverter, ghost ctx: Context, ghost bl: Vector)
      requires Ready(ctx) && ctx.hpp == Hpp.blockCols && |DInvSchur| == |ctx.landmarkEnds| && Landmarks(ctx, Hll.blockCols, inverse)
      requires IsTail(b[..], Size(ctx.poseEnds), bl, Size(ctx.landmarkEnds))
      modifies Hschur, coefficients, bschur, this`DInvSchur
      ensures Ready(ctx) && DInvSchur == ctx.dinv
      ensures ReducedUpTo(ctx, Hschur.blockCols, |ctx.landmarkEnds|, 0, 0)
      ensures forall i :: 0 <= i < bschur.Length ==>
        bschur[i] == b[i] - MatVec(Size(ctx.landmarkEnds), E(ctx), Y(ctx, bl))(i)
    {
      hide ReducedUpTo, CoefficientsUpTo, IsTail, E, Y, Views, Landmarks;
      ResetSchur(ctx);
      ResetCoefficients(ctx, bl);
      EliminateAll(inverse, ctx, bl);
      ReduceRightHandSide(ctx, bl);
    }

    method ReduceRightHandSide(ghost ctx: Context, ghost bl: Vector)
      requires Ready(ctx) && CoefficientsUpTo(ctx, bl, coefficients[..], |ctx.landmarkEnds|, 0)
      modifies bschur
      ensures forall i :: 0 <= i < bschur.Length ==>
        bschur[i] == b[i] - MatVec(Size(ctx.landmarkEnds), E(ctx), Y(ctx, bl))(i)
    {
      hide CoefficientsUpTo, E, Y, Views, ValidContext;
      for i := 0 to bschur.Length
        invariant forall k :: 0 <= k < i ==> bschur[k] == b[k] - MatVec(Size(ctx.landmarkEnds), E(ctx), Y(ctx, bl))(k)
      {
        AllCoefficients(ctx, bl, coefficients[..], i);
        bschur[i] := b[i] - coefficients[i];
      }
    }

    method EliminateAll(inverse: Inverter, ghost ctx: Context, ghost bl: Vector)
      requires Ready(ctx) && |DInvSchur| == |ctx.landmarkEnds| && Landmarks(ctx, Hll.blockCols, inverse)
      requires IsTail(b[..], Size(ctx.poseEnds), bl, Size(ctx.landmarkEnds))
      requires ReducedUpTo(ctx, Hschur.blockCols, 0, 0, 0) && CoefficientsUpTo(ctx, bl, coefficients[..], 0, 0)
      modifies Hschur, coefficients, this`DInvSchur
      ensures Ready(ctx) && DInvSchur == ctx.dinv
      ensures ReducedUpTo(ctx, Hschur.blockCols, |ctx.landmarkEnds|, 0, 0)
      ensures CoefficientsUpTo(ctx, bl, coefficients[..], |ctx.landmarkEnds|, 0)
    {
      hide ReducedUpTo, CoefficientsUpTo, IsTail, Views, ValidContext, DiagonalOnly;
      for l := 0 to |Hll.colBlockIndices|
        invariant Ready(ctx) && |DInvSchur| == |ctx.landmarkEnds| && DInvSchur[..l] == ctx.dinv[..l] && Landmarks(ctx, Hll.blockCols, inverse)
        invariant ReducedUpTo(ctx, Hschur.blockCols, l, 0, 0) && CoefficientsUpTo(ctx, bl, coefficients[..], l, 0)
      {
        EliminateLandmark(l, inverse, ctx, bl);
      }
    }

    lemma StartElimination(inverse: Inverter) returns (ctx: Context, bl: Vector)
      requires Shapes() && Buffers() && Views() && DiagonalOnly(Hll.blockCols)
      ensures Ready(ctx) && ctx.hpp == Hpp.blockCols && Landmarks(ctx, Hll.blockCols, inverse)
      ensures ctx.dinv == Inverses(Hll.colBlockIndices, Hll.blockCols, inverse)
      ensures bl == FromOffset(AsVector(b[..]), Size(ctx.poseEnds))
      ensures IsTail(b[..], Size(ctx.poseEnds), bl, Size(ctx.landmarkEnds))
    {
      ctx := Elimination(inverse);
      bl := FromOffset(AsVector(b[..]), Size(ctx.poseEnds));
    }

    lemma Conclude(inverse: Inverter, ctx: Context, bl: Vector, xp: Vector)
      requires Ready(ctx) && ctx.hpp == Hpp.blockCols && Landmarks(ctx, Hll.blockCols, inverse)
      requires Invertible(Hll.colBlockIndices, Hll.blockCols, inverse)
      requires bl == FromOffset(AsVector(b[..]), Size(ctx.poseEnds))
      requires ReducedUpTo(ctx, Hschur.blockCols, |ctx.landmarkEnds|, 0, 0)
      requires SolvesReduced(Size(ctx.poseEnds), Size(ctx.landmarkEnds), Upper(Hschur.AsDense()), E(ctx), DI(ctx),
                             xp, AsVector(b[..]), bl)
      requires BackSubstituted(Size(ctx.poseEnds), Size(ctx.landmarkEnds), E(ctx), DI(ctx), xp, bl,
                               FromOffset(AsVector(x[..]), Size(ctx.poseEnds)))
      requires forall i :: 0 <= i < Size(ctx.poseEnds) ==> xp(i) == AsVector(x[..])(i)
      ensures SolvesWhole(Size(ctx.poseEnds), Size(ctx.landmarkEnds), Upper(Hpp.AsDense()), Hpl.AsDense(),
                          Hll.AsDense(), AsVector(x[..]), AsVector(b[..]))
    {
      hide ReducedUpTo, SolvesReduced, BackSubstituted, Views, Invertible, Landmarks, ValidContext;
      hide DI, Upper, SolvesWhole, Size, Entry;
      LandmarkInverses(ctx, Hll.blockCols, inverse);
      WholeSolution(ctx, Hschur.blockCols, Hll.blockCols, xp, AsVector(x[..]), AsVector(b[..]));
    }

    /** The poses: solves the reduced system and stores whatever the solver left behind. */
    method SolvePoses(solver: LinearSolver, ghost ctx: Context, ghost bp: Vector, ghost bl: Vector) returns (ok: bool)
      requires Ready(ctx) && SolvesOnSuccess(solver)
      requires ReducedUpTo(ctx, Hschur.blockCols, |ctx.landmarkEnds|, 0, 0)
      requires forall i :: 0 <= i < bschur.Length ==> bschur[i] == bp(i) - MatVec(Size(ctx.landmarkEnds), E(ctx), Y(ctx, bl))(i)
      modifies x
      ensures ok == solver(bschur.Length, Upper(Hschur.AsDense()), AsVector(bschur[..])).0
      ensures forall i :: 0 <= i < bschur.Length ==> x[i] == solver(bschur.Length, Upper(Hschur.AsDense()), AsVector(bschur[..])).1(i)
      ensures forall i :: bschur.Length <= i < x.Length ==> x[i] == old(x[i])
      ensures ok ==> SolvesReduced(Size(ctx.poseEnds), Size(ctx.landmarkEnds), Upper(Hschur.AsDense()), E(ctx), DI(ctx),
                                   AsVector(x[..]), bp, bl)
    {
      hide ReducedUpTo, E, DI, Views, Entry;
      var n := Size(Hpp.rowBlockIndices);
      var (solved, solution) := solver(n, Upper(Hschur.AsDense()), AsVector(bschur[..]));
      for i := 0 to n
        invariant forall k :: 0 <= k < i ==> x[k] == solution(k)
        invariant forall k :: n <= k < x.Length ==> x[k] == old(x[k])
      {
        x[i] := solution(i);
      }
      if solved {
        SolutionStored(n, Upper(Hschur.AsDense()), solution, AsVector(x[..]), AsVector(bschur[..]));
      }
      return solved;
    }

    /** Without landmarks there is nothing to eliminate: the linear solver works on the pose part as it is. */
    method SolveDirectly(solver: LinearSolver) returns (ok: bool)
      requires Shapes() && Buffers() && SolvesOnSuccess(solver)
      modifies x
      ensures ok == solver(bschur.Length, Upper(Hpp.AsDense()), AsVector(b[..])).0
      ensures forall i :: 0 <= i < bschur.Length ==> x[i] == solver(bschur.Length, Upper(Hpp.AsDense()), AsVector(b[..])).1(i)
      ensures forall i :: bschur.Length <= i < x.Length ==> x[i] == old(x[i])
      ensures ok ==> Solves(Size(Hpp.rowBlockIndices), Upper(Hpp.AsDense()), AsVector(x[..]), AsVector(b[..]))
    {
      hide Entry, MatVec;
      var n := Size(Hpp.rowBlockIndices);
      var (solved, solution) := solver(n, Upper(Hpp.AsDense()), AsVector(b[..]));
      for i := 0 to n
        invariant forall k :: 0 <= k < i ==> x[k] == solution(k)
        invariant forall k :: n <= k < x.Length ==> x[k] == old(x[k])
      {
        x[i] := solution(i);
      }
      if solved {
        SolutionStored(n, Upper(Hpp.AsDense()), solution, AsVector(x[..]), AsVector(b[..]));
      }
      return solved;
    }

    /** The landmarks: D^-1 (bl - E^T xp). */
    method BackSubstitute(ghost ctx: Context, ghost bl: Vector)
      requires Ready(ctx) && DInvSchur == ctx.dinv && IsTail(b[..], Size(ctx.poseEnds), bl, Size(ctx.landmarkEnds))
      modifies x, coefficients
      ensures forall i :: 0 <= i < Size(ctx.poseEnds) ==> x[i] == old(x[i])
      ensures BackSubstituted(Size(ctx.poseEnds), Size(ctx.landmarkEnds), E(ctx), DI(ctx), AsVector(old(x[..])), bl,
                              FromOffset(AsVector(x[..]), Size(ctx.poseEnds)))
    {
      hide Views, E, DiagonalDense, Entry, ValidContext, IsTail, Residual;
      ghost var xp := AsVector(x[..]);
      var p, n := Size(Hpp.rowBlockIndices), Size(Hll.colBlockIndices);
      ComputeResidual(ctx, bl);
      var cl := FromOffset(AsVector(coefficients[..]), p);
      assert x[..] == old(x[..]);
      forall k | 0 <= k < n ensures cl(k) == Residual(p, E(ctx), xp, bl)(k) {
        assert cl(k) == coefficients[p + k];
      }
      for k := p to p + n
        invariant forall i :: 0 <= i < p ==> x[i] == old(x[i])
        invariant forall i :: p <= i < k ==> x[i] == 0.0
      {
        x[k] := 0.0;
      }
      Multiply(Hll.colBlockIndices, DInvSchur, cl, x, p);
      forall k | 0 <= k < n ensures x[p + k] == MatVec(n, DI(ctx), Residual(p, E(ctx), xp, bl))(k) {
        MatVecCong(n, DI(ctx), DI(ctx), cl, Residual(p, E(ctx), xp, bl), k);
      }
    }

    /** Leaves bl - E^T xp behind the poses' part of the coefficients. */
    method ComputeResidual(ghost ctx: Context, ghost bl: Vector)
      requires Ready(ctx) && IsTail(b[..], Size(ctx.poseEnds), bl, Size(ctx.landmarkEnds))
      modifies coefficients
      ensures forall k :: 0 <= k < Size(ctx.landmarkEnds) ==>
        coefficients[Size(ctx.poseEnds) + k] == Residual(Size(ctx.poseEnds), E(ctx), AsVector(x[..]), bl)(k)
    {
      hide Entry;
      var p, n := Size(Hpp.rowBlockIndices), Size(Hll.colBlockIndices);
      for i := 0 to p
        invariant forall k :: 0 <= k < i ==> coefficients[k] == -x[k]
      {
        coefficients[i] := -x[i];
      }
      for k := p to p + n
        invariant forall i :: 0 <= i < p ==> coefficients[i] == -x[i]
        invariant forall i :: p <= i < k ==> coefficients[i] == b[i]
      {
        coefficients[k] := b[k];
      }
      var cp := AsVector(coefficients[..p]);
      RightMultiply(Hpl.rowBlockIndices, Hpl.colBlockIndices, Hpl.blockCols, HplCCS, cp, coefficients, p);
      forall k | 0 <= k < n ensures coefficients[p + k] == Residual(p, E(ctx), AsVector(x[..]), bl)(k) {
        NegatedProduct(p, Transpose(E(ctx)), cp, AsVector(x[..]), k);
      }
    }

    /** What the elimination leaves is the reduced system. */
    lemma ReducedSystem(inverse: Inverter, ctx: Context, bl: Vector)
      requires Ready(ctx) && ctx.hpp == Hpp.blockCols && DiagonalOnly(Hll.blockCols)
      requires ctx.dinv == Inverses(Hll.colBlockIndices, Hll.blockCols, inverse)
      requires bl == FromOffset(AsVector(b[..]), Size(ctx.poseEnds))
      requires ReducedUpTo(ctx, Hschur.blockCols, |ctx.landmarkEnds|, 0, 0)
      requires forall i :: 0 <= i < bschur.Length ==> bschur[i] == b[i] - MatVec(Size(ctx.landmarkEnds), E(ctx), Y(ctx, bl))(i)
      ensures IsReducedSystem(bschur.Length, Size(Hll.colBlockIndices), Hpp.AsDense(), Hpl.AsDense(),
                              DiagonalDense(Hll.colBlockIndices, Inverses(Hll.colBlockIndices, Hll.blockCols, inverse)),
                              AsVector(b[..]), Upper(Hschur.AsDense()), AsVector(bschur[..]))
    {
      hide ReducedUpTo, Views, ValidContext, Eliminated, MatVec, Entry, Inverses, DiagonalEntry;
      forall i, j | 0 <= i <= j < bschur.Length
        ensures Hschur.AsDense()(i, j) == Hpp.AsDense()(i, j) - Eliminated(Size(ctx.landmarkEnds), E(ctx), DI(ctx))(i, j)
      {
        FullyReduced(ctx, Hschur.blockCols, i, j);
      }
    }

    lemma StoredLandmarks(ctx: Context, bl: Vector, xp: Vector)
      requires Ready(ctx) && DInvSchur == ctx.dinv && bl == FromOffset(AsVector(b[..]), Size(ctx.poseEnds))
      requires BackSubstituted(Size(ctx.poseEnds), Size(ctx.landmarkEnds), E(ctx), DI(ctx), xp, bl,
                               FromOffset(AsVector(x[..]), Size(ctx.poseEnds)))
      requires forall i :: 0 <= i < Size(ctx.poseEnds) ==> xp(i) == x[i]
      ensures BackSubstituted(bschur.Length, Size(Hll.colBlockIndices), Hpl.AsDense(),
                              DiagonalDense(Hll.colBlockIndices, DInvSchur), AsVector(x[..]),
                              FromOffset(AsVector(b[..]), bschur.Length), FromOffset(AsVector(x[..]), bschur.Length))
    {
      hide Views, ValidContext, DiagonalEntry, Entry, BackSubstituted;
      BackSubstitutedCong(bschur.Length, Size(ctx.landmarkEnds), E(ctx), DI(ctx), xp, AsVector(x[..]), bl,
                          FromOffset(AsVector(x[..]), bschur.Length));
    }

    /**
     Solves the whole system through the reduced one. The verdict is the linear solver's on the reduced
     system, whose answer the poses get; on success the poses and landmarks together are an exact solution.
     */
    method Solve(inverse: Inverter, solver: LinearSolver) returns (ok: bool)
      requires Shapes() && Buffers() && Views() && |DInvSchur| == |Hll.colBlockIndices|
      requires DiagonalOnly(Hll.blockCols) && SolvesOnSuccess(solver)
      modifies Hschur, coefficients, bschur, x, this`DInvSchur
      ensures Shapes() && Views() && DInvSchur == Inverses(Hll.colBlockIndices, Hll.blockCols, inverse)
      ensures IsReducedSystem(bschur.Length, Size(Hll.colBlockIndices), Hpp.AsDense(), Hpl.AsDense(),
                              DiagonalDense(Hll.colBlockIndices, DInvSchur),
                              AsVector(b[..]), Upper(Hschur.AsDense()), AsVector(bschur[..]))
      ensures ok == solver(bschur.Length, Upper(Hschur.AsDense()), AsVector(bschur[..])).0
      ensures forall i :: 0 <= i < bschur.Length ==> x[i] == solver(bschur.Length, Upper(Hschur.AsDense()), AsVector(bschur[..])).1(i)
      ensures !ok ==> forall i :: bschur.Length <= i < x.Length ==> x[i] == old(x[i])
      ensures ok ==> BackSubstituted(bschur.Length, Size(Hll.colBlockIndices), Hpl.AsDense(),
                                     DiagonalDense(Hll.colBlockIndices, DInvSchur), AsVector(x[..]),
                                     FromOffset(AsVector(b[..]), bschur.Length), FromOffset(AsVector(x[..]), bschur.Length))
      ensures ok && Invertible(Hll.colBlockIndices, Hll.blockCols, inverse) ==>
        SolvesWhole(Size(Hpp.rowBlockIndices), Size(Hll.colBlockIndices), Upper(Hpp.AsDense()), Hpl.AsDense(),
                    Hll.AsDense(), AsVector(x[..]), AsVector(b[..]))
    {
      hide Views, E, DI, Entry, ReducedUpTo, SolvesReduced, BackSubstituted, Invertible, SolvesOnSuccess, IsTail, Y;
      hide IsReducedSystem, Upper, SolvesWhole, Inverses;
      ghost var ctx, bl := StartElimination(inverse);
      Reduce(inverse, ctx, bl);
      ReducedSystem(inverse, ctx, bl);
      ok := SolvePoses(solver, ctx, AsVector(b[..]), bl);
      if ok {
        ghost var xp := AsVector(x[..]);
        BackSubstitute(ctx, bl);
        StoredLandmarks(ctx, bl, xp);
        if Invertible(Hll.colBlockIndices, Hll.blockCols, inverse) {
          Conclude(inverse, ctx, bl, xp);
        }
      }
    }
  }

  /** db is the landmark's segment of D^-1 bl. */
  ghost predicate IsLandmarkShare(ctx: Context, bl: Vector, l: nat, db: Vector) {
    forall t :: 0 <= t < Dim(ctx.landmarkEnds, l) ==> db(t) == Y(ctx, bl)(Base(ctx.landmarkEnds, l) + t)
  }

  lemma SameShare(ctx: Context, bl: Vector, l: nat, db: Vector, r: nat, a: int)
    requires IsLandmarkShare(ctx, bl, l, db) && l < |ctx.hpl| && r in ctx.hpl[l]
    ensures MatVec(Dim(ctx.landmarkEnds, l), ctx.hpl[l][r], FromOffset(db, 0))(a) == PoseShare(ctx, bl, r, l)(a)
  {
    hide Y, Dim, Base;
    SumCong(0, Dim(ctx.landmarkEnds, l), Terms(ctx.hpl[l][r], a, FromOffset(db, 0)),
            Terms(ctx.hpl[l][r], a, FromOffset(Y(ctx, bl), Base(ctx.landmarkEnds, l))));
  }

  lemma StartReduced(ctx: Context, pattern: BlockColumns, cleared: BlockColumns, schur: BlockColumns)
    requires ValidContext(ctx) && |pattern| == |cleared| && forall c :: 0 <= c < |cleared| ==> cleared[c] == Zeroed(pattern[c])
    requires AddedUpTo(schur, cleared, ctx.hpp, 0, |schur|)
    ensures ReducedUpTo(ctx, schur, 0, 0, 0)
    ensures |schur| == |pattern| && forall c, r :: 0 <= c < |pattern| && r in pattern[c] ==> r in schur[c]
  {
    forall r1: nat, a, r2: nat, b | InBlock(ctx, r1, a) && InBlock(ctx, r2, b) && r1 <= r2
      ensures Reduced(ctx, schur, r1, a, r2, b, Base(ctx.landmarkEnds, Stage(0, Done(r1, r2, 0, 0))))
    {
      hide Parts;
      assert BlockEntry(cleared, r1, r2, a, b) == 0.0;
      assert BlockEntry(schur, r1, r2, a, b) == BlockEntry(ctx.hpp, r1, r2, a, b);
    }
  }

  lemma KeepsViews(view: seq<Column>, before: BlockColumns, after: BlockColumns)
    requires IsTransposedView(view, before) && |before| == |after|
    requires forall c, r :: 0 <= c < |before| && r in before[c] ==> r in after[c]
    ensures IsTransposedView(view, after)
  {
    forall r | 0 <= r < |view| ensures RowView(view[r], after, r) {
      assert RowView(view[r], before, r);
    }
  }

  lemma StartCoefficients(ctx: Context, bl: Vector, coefficients: seq<real>)
    requires ValidContext(ctx) && Size(ctx.poseEnds) <= |coefficients|
    requires forall k :: 0 <= k < Size(ctx.poseEnds) ==> coefficients[k] == 0.0
    ensures CoefficientsUpTo(ctx, bl, coefficients, 0, 0)
  {
    forall r: nat, a | InBlock(ctx, r, a)
      ensures CoefficientAt(ctx, bl, coefficients, r, a, Base(ctx.landmarkEnds, Stage(0, r < 0)))
    {
      BaseMonotone(ctx.poseEnds, r + 1, |ctx.poseEnds|);
      hide E, Y;
    }
  }

  /** x is the solution of [A E; E^T D] x = b, where A has n rows and D has m. */
  ghost predicate SolvesWhole(n: nat, m: nat, A: Matrix, E: Matrix, D: Matrix, x: Vector, b: Vector) {
    && (forall i :: 0 <= i < n ==> MatVec(n, A, x)(i) + MatVec(m, E, FromOffset(x, n))(i) == b(i))
    && (forall k :: 0 <= k < m ==> MatVec(n, Transpose(E), x)(k) + MatVec(m, D, FromOffset(x, n))(k) == b(n + k))
  }

  /** The context holds the inverses of the landmark blocks. */
  ghost predicate Landmarks(ctx: Context, hll: BlockColumns, inverse: Inverter) {
    && DiagonalOnly(hll) && |ctx.dinv| == |hll| == |ctx.landmarkEnds|
    && forall l :: 0 <= l < |ctx.dinv| ==> ctx.dinv[l] == inverse(Dim(ctx.landmarkEnds, l), hll[l][l])
  }

  ghost function LandmarkBlocks(hll: BlockColumns): (r: seq<Matrix>)
    requires DiagonalOnly(hll)
    ensures |r| == |hll| && forall l :: 0 <= l < |hll| ==> r[l] == hll[l][l]
  {
    seq<Matrix>(|hll|, l requires 0 <= l < |hll| => hll[l][l])
  }

  /** The landmark part of the matrix holds nothing but its diagonal blocks. */
  lemma LandmarkPartIsDiagonal(ends: seq<nat>, hll: BlockColumns, i: int, j: int)
    requires Monotone(ends) && |hll| == |ends| && DiagonalOnly(hll) && 0 <= i < Size(ends) && 0 <= j < Size(ends)
    ensures Dense(ends, ends, hll)(i, j) == DiagonalDense(ends, LandmarkBlocks(hll))(i, j)
  {
    BlockOfWithin(ends, i);
    BlockOfWithin(ends, j);
  }

  /** The block-by-block inverses make up a symmetric right inverse of the landmark part. */
  lemma LandmarkInverses(ctx: Context, hll: BlockColumns, inverse: Inverter)
    requires ValidContext(ctx) && Landmarks(ctx, hll, inverse) && Invertible(ctx.landmarkEnds, hll, inverse)
    ensures SymmetricMatrix(Size(ctx.landmarkEnds), DI(ctx))
    ensures RightInverse(Size(ctx.landmarkEnds), Dense(ctx.landmarkEnds, ctx.landmarkEnds, hll), DI(ctx))
  {
    var ends, blocks := ctx.landmarkEnds, LandmarkBlocks(hll);
    var n := Size(ends);
    hide SymmetricMatrix, LeftInverse, RightInverse, DiagonalEntry, Entry;
    forall l | 0 <= l < |ends|
      ensures SymmetricMatrix(Dim(ends, l), ctx.dinv[l]) && RightInverse(Dim(ends, l), blocks[l], ctx.dinv[l])
    {
      InverseSymmetric(Dim(ends, l), blocks[l], ctx.dinv[l]);
    }
    DiagonalSymmetric(ends, ctx.dinv);
    DiagonalInverse(ends, blocks, ctx.dinv);
    forall i, j | 0 <= i < n && 0 <= j < n ensures Dense(ends, ends, hll)(i, j) == DiagonalDense(ends, blocks)(i, j) {
      LandmarkPartIsDiagonal(ends, hll, i, j);
    }
    SameRightInverse(n, DiagonalDense(ends, blocks), Dense(ends, ends, hll), DI(ctx));
  }

  lemma SameRightInverse(n: nat, D: Matrix, D': Matrix, X: Matrix)
    requires RightInverse(n, D, X) && forall i, j :: 0 <= i < n && 0 <= j < n ==> D'(i, j) == D(i, j)
    ensures RightInverse(n, D', X)
  {
    forall i, j | 0 <= i < n && 0 <= j < n ensures MatMul(n, D', X)(i, j) == Delta(i, j) {
      MatMulCong(n, D', D, X, X, i, j);
      assert MatMul(n, D, X)(i, j) == Delta(i, j);
    }
  }

  lemma WholeSolution(ctx: Context, schur: BlockColumns, hll: BlockColumns, xp: Vector, x: Vector, b: Vector)
    requires ValidContext(ctx) && ReducedUpTo(ctx, schur, |ctx.landmarkEnds|, 0, 0)
    requires SymmetricMatrix(Size(ctx.landmarkEnds), DI(ctx))
    requires RightInverse(Size(ctx.landmarkEnds), Dense(ctx.landmarkEnds, ctx.landmarkEnds, hll), DI(ctx))
    requires SolvesReduced(Size(ctx.poseEnds), Size(ctx.landmarkEnds), Upper(Dense(ctx.poseEnds, ctx.poseEnds, schur)),
                           E(ctx), DI(ctx), xp, b, FromOffset(b, Size(ctx.poseEnds)))
    requires BackSubstituted(Size(ctx.poseEnds), Size(ctx.landmarkEnds), E(ctx), DI(ctx), xp, FromOffset(b, Size(ctx.poseEnds)),
                             FromOffset(x, Size(ctx.poseEnds)))
    requires forall i :: 0 <= i < Size(ctx.poseEnds) ==> xp(i) == x(i)
    ensures SolvesWhole(Size(ctx.poseEnds), Size(ctx.landmarkEnds), Upper(Dense(ctx.poseEnds, ctx.poseEnds, ctx.hpp)),
                        E(ctx), Dense(ctx.landmarkEnds, ctx.landmarkEnds, hll), x, b)
  {
    hide ReducedUpTo, SymmetricMatrix, RightInverse, SolvesReduced, BackSubstituted, ValidContext, Eliminated;
    hide E, DI, Upper, Dense, Size;
    var n, m := Size(ctx.poseEnds), Size(ctx.landmarkEnds);
    var A, D := Upper(Dense(ctx.poseEnds, ctx.poseEnds, ctx.hpp)), Dense(ctx.landmarkEnds, ctx.landmarkEnds, hll);
    var S := Upper(Dense(ctx.poseEnds, ctx.poseEnds, schur));
    forall i, j | 0 <= i < n && 0 <= j < n ensures S(i, j) == A(i, j) - Eliminated(m, E(ctx), DI(ctx))(i, j) {
      ReducedIsSchurComplement(ctx, schur, i, j);
    }
    SchurIsExact(n, m, A, E(ctx), D, DI(ctx), S, xp, FromOffset(x, n), b, FromOffset(b, n));
    StoredSolution(n, m, A, E(ctx), D, xp, x, b);
  }

  lemma StoredSolution(n: nat, m: nat, A: Matrix, E: Matrix, D: Matrix, xp: Vector, x: Vector, b: Vector)
    requires forall i :: 0 <= i < n ==> xp(i) == x(i)
    requires forall i :: 0 <= i < n ==> MatVec(n, A, xp)(i) + MatVec(m, E, FromOffset(x, n))(i) == b(i)
    requires forall k :: 0 <= k < m ==> MatVec(n, Transpose(E), xp)(k) + MatVec(m, D, FromOffset(x, n))(k) == FromOffset(b, n)(k)
    ensures SolvesWhole(n, m, A, E, D, x, b)
  {
    hide MatVec;
    forall i | 0 <= i < n ensures MatVec(n, A, x)(i) + MatVec(m, E, FromOffset(x, n))(i) == b(i) {
      MatVecCong(n, A, A, x, xp, i);
    }
    forall k | 0 <= k < m ensures MatVec(n, Transpose(E), x)(k) + MatVec(m, D, FromOffset(x, n))(k) == b(n + k) {
      MatVecCong(n, Transpose(E), Transpose(E), x, xp, k);
    }
  }

  lemma SolutionStored(n: nat, A: Matrix, solution: Vector, x: Vector, b: Vector)
    requires Solves(n, A, solution, b) && forall k :: 0 <= k < n ==> x(k) == solution(k)
    ensures Solves(n, A, x, b)
  {
    forall i | 0 <= i < n ensures MatVec(n, A, x)(i) == b(i) {
      SumCong(0, n, Terms(A, i, x), Terms(A, i, solution));
    }
  }

  lemma NegatedProduct(n: nat, A: Matrix, y: Vector, x: Vector, i: int)
    requires forall k :: 0 <= k < n ==> y(k) == -x(k)
    ensures MatVec(n, A, y)(i) == -MatVec(n, A, x)(i)
  {
    forall k | 0 <= k < n ensures Terms(A, i, y)(k) == -1.0 * Terms(A, i, x)(k) {
      LinearTerm(A(i, k), 0.0, -1.0, x(k));
    }
    SumScale(0, n, -1.0, Terms(A, i, x), Terms(A, i, y));
  }

  function VectorEntry(s: seq<real>, i: int): real {
    if 0 <= i < |s| then s[i] else 0.0
  }

  function AsVector(s: seq<real>): Vector {
    i => VectorEntry(s, i)
  }

  /** bl is the part of b from start on. */
  ghost predicate IsTail(b: seq<real>, start: nat, bl: Vector, n: nat) {
    |b| == start + n && forall k :: 0 <= k < n ==> bl(k) == b[start + k]
  }

  lemma LandmarkShare(ctx: Context, bl: Vector, b: seq<real>, l: nat)
    requires ValidContext(ctx) && l < |ctx.landmarkEnds| && IsTail(b, Size(ctx.poseEnds), bl, Size(ctx.landmarkEnds))
    ensures IsLandmarkShare(ctx, bl, l, MatVec(Dim(ctx.landmarkEnds, l), ctx.dinv[l],
                                               FromOffset(AsVector(b), Size(ctx.poseEnds) + Base(ctx.landmarkEnds, l))))
  {
    var ends, n := ctx.landmarkEnds, Dim(ctx.landmarkEnds, l);
    var x, y := FromOffset(AsVector(b), Size(ctx.poseEnds) + Base(ends, l)), FromOffset(bl, Base(ends, l));
    BaseMonotone(ends, l + 1, |ends|);
    forall t | 0 <= t < n ensures MatVec(n, ctx.dinv[l], x)(t) == Y(ctx, bl)(Base(ends, l) + t) {
      DiagonalTimesVector(ends, ctx.dinv, l, t, bl);
      SumCong(0, n, Terms(ctx.dinv[l], t, x), Terms(ctx.dinv[l], t, y));
    }
  }

  lemma NextLandmark(ctx: Context, schur: BlockColumns, bl: Vector, coefficients: seq<real>, l: nat, end: nat)
    requires |ctx.poseEnds| <= end
    requires ReducedUpTo(ctx, schur, l, end, 0) && CoefficientsUpTo(ctx, bl, coefficients, l, end)
    ensures ReducedUpTo(ctx, schur, l + 1, 0, 0) && CoefficientsUpTo(ctx, bl, coefficients, l + 1, 0)
  {
    hide Reduced, CoefficientAt, Base;
    forall r1: nat, a, r2: nat, b | InBlock(ctx, r1, a) && InBlock(ctx, r2, b) && r1 <= r2
      ensures Reduced(ctx, schur, r1, a, r2, b, Base(ctx.landmarkEnds, Stage(l + 1, Done(r1, r2, 0, 0))))
    {
      assert Done(r1, r2, end, 0) by {
        assert r1 < |ctx.poseEnds|;
      }
      assert Reduced(ctx, schur, r1, a, r2, b, Base(ctx.landmarkEnds, l + 1));
    }
    forall r: nat, a | InBlock(ctx, r, a)
      ensures CoefficientAt(ctx, bl, coefficients, r, a, Base(ctx.landmarkEnds, Stage(l + 1, r < 0)))
    {
      assert r < end && CoefficientAt(ctx, bl, coefficients, r, a, Base(ctx.landmarkEnds, l + 1));
    }
  }

  function Negated(A: Matrix): Matrix {
    (i, j) => -A(i, j)
  }

  lemma SubtractedPair(ctx: Context, before: BlockColumns, after: BlockColumns, l: nat, i1: nat, i2: nat, Bi: Matrix,
                       Bj: Matrix)
    requires ValidContext(ctx) && l < |ctx.landmarkEnds| && i1 <= i2 < |before| && i1 in before[i2]
    requires i1 in ctx.hpl[l] && i2 in ctx.hpl[l] && Bi == ctx.hpl[l][i1] && Bj == ctx.hpl[l][i2]
    requires ReducedUpTo(ctx, before, l, i1, i2)
    requires var n := Dim(ctx.landmarkEnds, l);
             var product := MatMul(n, MatMul(n, Bi, ctx.dinv[l]), Transpose(Bj));
             after == WithBlock(before, i1, i2, PlusMatrix(before[i2][i1], Negated(product)))
    ensures ReducedUpTo(ctx, after, l, i1, i2 + 1)
  {
    hide ReducedUpTo;
    var n := Dim(ctx.landmarkEnds, l);
    var product := MatMul(n, MatMul(n, Bi, ctx.dinv[l]), Transpose(Bj));
    ReducePair(ctx, before, after, l, i1, i2, PlusMatrix(before[i2][i1], Negated(product)));
  }
}
