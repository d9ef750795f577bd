/** Damping the block system on its diagonal blocks: what the store then denotes, and that it is undone exactly. */
module Damping {
  import opened LinearAlgebra
  import opened BlockLayout
  import opened SparseBlocks
  import opened CompressedViews
  import opened DampedNewton
  import opened SystemStore
  import opened BlockSolver
  import opened SystemAssembly
  import opened LeastSquares
  import Normal = NormalEquations

  /** Every diagonal block of the pose and landmark parts has lambda added to its diagonal. */
  ghost predicate Raised(st: Store, st': Store, damp: real) {
    && DiagonalsPresent(st.hpp) && DiagonalRaised(st.hpp, st'.hpp, damp, |st.hpp|)
    && DiagonalsPresent(st.hll) && DiagonalRaised(st.hll, st'.hll, damp, |st.hll|) && st'.hpl == st.hpl
  }

  lemma RaisedEntry(before: BlockColumns, after: BlockColumns, damp: real, r: nat, c: nat, a: int, b: int)
    requires DiagonalsPresent(before) && DiagonalRaised(before, after, damp, |before|)
    ensures BlockEntry(after, r, c, a, b) == BlockEntry(before, r, c, a, b) + if r == c < |before| && a == b then damp else 0.0
  {
  }

  /** A store of H becomes a store of H + lambda I. */
  lemma RaisedIsDamped(st: Store, st': Store, np: nat, all: seq<nat>, poseEnds: seq<nat>, landmarkEnds: seq<nat>, H: Matrix,
                       damp: real)
    requires Stores(st, np, all, poseEnds, landmarkEnds, H) && Raised(st, st', damp)
    requires |st.hpp| == |poseEnds| && |st.hll| == |landmarkEnds|
    ensures Stores(st', np, all, poseEnds, landmarkEnds, Damped(H, damp))
  {
    hide Stores, Raised, StoredEntry;
    LayoutParts(st, np, all, poseEnds, landmarkEnds, H);
    forall i: nat, p, j: nat, q | Within(all, i, p) && Within(all, j, q) && i <= j
      ensures HoldsAt(st', np, all, Damped(H, damp), i, p, j, q)
    {
      StoredAt(st, np, all, poseEnds, landmarkEnds, H, i, p, j, q);
      RaisedAt(st, st', np, |all|, damp, i, j, p - Base(all, i), q - Base(all, j));
      SameCoordinate(all, i, p, j, q);
    }
    DampedSymmetric(st, np, all, poseEnds, landmarkEnds, H, damp);
    StoresDamped(st', np, all, poseEnds, landmarkEnds, Damped(H, damp));
  }

  lemma RaisedAt(st: Store, st': Store, np: nat, n: nat, damp: real, i: nat, j: nat, a: int, b: int)
    requires Raised(st, st', damp) && |st.hpp| == np <= n && |st.hll| == n - np && i <= j < n
    ensures StoredEntry(st', np, i, j, a, b) == StoredEntry(st, np, i, j, a, b) + if i == j && a == b then damp else 0.0
  {
    hide DiagonalRaised, BlockEntry;
    if j < np {
      RaisedEntry(st.hpp, st'.hpp, damp, i, j, a, b);
    } else if i >= np {
      RaisedEntry(st.hll, st'.hll, damp, i - np, j - np, a, b);
    }
  }

  lemma SameCoordinate(all: seq<nat>, i: nat, p: int, j: nat, q: int)
    requires Monotone(all) && Within(all, i, p) && Within(all, j, q)
    ensures p == q <==> i == j && p - Base(all, i) == q - Base(all, j)
  {
    BlockUnique(all, i, p);
    BlockUnique(all, j, q);
  }

  lemma DampedSymmetric(st: Store, np: nat, all: seq<nat>, poseEnds: seq<nat>, landmarkEnds: seq<nat>, H: Matrix, damp: real)
    requires Stores(st, np, all, poseEnds, landmarkEnds, H)
    ensures SymmetricMatrix(Size(all), Damped(H, damp)) && Layouts(all, np, poseEnds, landmarkEnds)
  {
    hide Holds, Layouts;
  }

  lemma StoresDamped(st: Store, np: nat, all: seq<nat>, poseEnds: seq<nat>, landmarkEnds: seq<nat>, H: Matrix)
    requires forall i: nat, p, j: nat, q :: Within(all, i, p) && Within(all, j, q) && i <= j ==> HoldsAt(st, np, all, H, i, p, j, q)
    requires SymmetricMatrix(Size(all), H) && Layouts(all, np, poseEnds, landmarkEnds)
    ensures Stores(st, np, all, poseEnds, landmarkEnds, H)
  {
    hide HoldsAt, Within, Layouts;
  }

  /** The saved diagonals put back into the raised blocks. */
  ghost predicate Restored(st: Store, raised: Store, st': Store, damp: real, poses: seq<Vector>, landmarks: seq<Vector>) {
    && Raised(st, raised, damp) && |poses| == |st.hpp| && |landmarks| == |st.hll| && st'.hpl == st.hpl
    && AreDiagonals(st.hpp, poses, |st.hpp|) && AreDiagonals(st.hll, landmarks, |st.hll|)
    && DiagonalReplaced(raised.hpp, st'.hpp, poses, |poses|) && DiagonalReplaced(raised.hll, st'.hll, landmarks, |landmarks|)
  }

  /** The same blocks with the same entries. */
  ghost predicate SameBlocks(before: BlockColumns, after: BlockColumns) {
    && |after| == |before|
    && (forall c: nat, r: nat :: c < |before| ==> (r in after[c] <==> r in before[c]))
    && forall r: nat, c: nat, a, b :: BlockEntry(after, r, c, a, b) == BlockEntry(before, r, c, a, b)
  }

  lemma PartRestored(before: BlockColumns, raised: BlockColumns, after: BlockColumns, damp: real, saved: seq<Vector>)
    requires DiagonalsPresent(before) && DiagonalRaised(before, raised, damp, |before|) && |saved| == |before|
    requires AreDiagonals(before, saved, |before|) && DiagonalReplaced(raised, after, saved, |saved|)
    ensures SameBlocks(before, after)
  {
    forall r: nat, c: nat, a, b ensures BlockEntry(after, r, c, a, b) == BlockEntry(before, r, c, a, b) {
      if c < |before| && r in before[c] && r == c {
        assert after[c][c] == ReplaceDiagonal(raised[c][c], saved[c]);
        assert raised[c][c] == PlusMatrix(before[c][c], ScaledIdentity(damp));
      }
    }
  }

  /** Restoring the diagonal gives back every entry and every block that there was. */
  lemma RestoringUndoes(st: Store, raised: Store, st': Store, np: nat, damp: real, poses: seq<Vector>, landmarks: seq<Vector>)
    requires Restored(st, raised, st', damp, poses, landmarks)
    ensures SamePattern(st, st', np) && SameEntries(st, st', np)
    ensures SameBlocks(st.hpp, st'.hpp) && SameBlocks(st.hll, st'.hll)
  {
    hide AreDiagonals, DiagonalRaised, DiagonalReplaced, BlockEntry;
    PartRestored(st.hpp, raised.hpp, st'.hpp, damp, poses);
    PartRestored(st.hll, raised.hll, st'.hll, damp, landmarks);
  }

  ghost predicate SameEntries(st: Store, st': Store, np: nat) {
    forall i: nat, j: nat, a, b :: StoredEntry(st', np, i, j, a, b) == StoredEntry(st, np, i, j, a, b)
  }

  lemma SameStores(st: Store, st': Store, np: nat, all: seq<nat>, poseEnds: seq<nat>, landmarkEnds: seq<nat>, H: Matrix)
    requires Stores(st, np, all, poseEnds, landmarkEnds, H) && SameEntries(st, st', np)
    ensures Stores(st', np, all, poseEnds, landmarkEnds, H)
  {
    hide StoredEntry, Within, Base, Layouts;
    forall i: nat, p, j: nat, q | Within(all, i, p) && Within(all, j, q) && i <= j ensures HoldsAt(st', np, all, H, i, p, j, q) {
      assert HoldsAt(st, np, all, H, i, p, j, q);
    }
  }

  /** Damps the system that the solver holds. */
  method Damp(solver: BlockSolver, damp: real, ghost np: nat, ghost all: seq<nat>, ghost H: Matrix, ghost g: Vector)
    requires Solvable(solver) && SystemIs(solver, np, all, H, g) && DiagonalsPresent(solver.Hpp.blockCols)
    modifies solver.Hpp, solver.Hll, solver`diagonalBackupPose, solver`diagonalBackupLandmark
    ensures Solvable(solver) && SystemIs(solver, np, all, Damped(H, damp), g)
    ensures Raised(old(StoreOf(solver)), StoreOf(solver), damp)
    ensures |solver.diagonalBackupPose| == |solver.Hpp.blockCols| && |solver.diagonalBackupLandmark| == |solver.Hll.blockCols|
    ensures AreDiagonals(old(solver.Hpp.blockCols), solver.diagonalBackupPose, |solver.Hpp.blockCols|)
    ensures AreDiagonals(old(solver.Hll.blockCols), solver.diagonalBackupLandmark, |solver.Hll.blockCols|)
  {
    hide Stores, IsView, PatternComplete;
    ghost var st := StoreOf(solver);
    solver.SetLambda(damp, true);
    RaisedIsDamped(st, StoreOf(solver), np, all, solver.Hpp.rowBlockIndices, solver.Hll.colBlockIndices, H, damp);
  }

  /** Takes the damping off again. */
  method Undamp(solver: BlockSolver, ghost st: Store, ghost damp: real, ghost np: nat, ghost all: seq<nat>, ghost H: Matrix,
                ghost g: Vector)
    requires Solvable(solver) && IsRightHandSide(solver.b, Size(all), g) && Raised(st, StoreOf(solver), damp)
    requires Stores(st, np, all, solver.Hpp.rowBlockIndices, solver.Hll.colBlockIndices, H)
    requires |solver.diagonalBackupPose| == |st.hpp| && AreDiagonals(st.hpp, solver.diagonalBackupPose, |st.hpp|)
    requires |solver.diagonalBackupLandmark| == |st.hll| && AreDiagonals(st.hll, solver.diagonalBackupLandmark, |st.hll|)
    modifies solver.Hpp, solver.Hll
    ensures Solvable(solver) && SystemIs(solver, np, all, H, g)
    ensures SamePattern(st, StoreOf(solver), np) && SameEntries(st, StoreOf(solver), np)
  {
    hide Stores, IsView, PatternComplete, SamePattern, SameEntries, BlockEntry, AreDiagonals;
    ghost var raised := StoreOf(solver);
    solver.RestoreDiagonal();
    RestoringUndoes(st, raised, StoreOf(solver), np, damp, solver.diagonalBackupPose, solver.diagonalBackupLandmark);
    SameStores(st, StoreOf(solver), np, all, solver.Hpp.rowBlockIndices, solver.Hll.colBlockIndices, H);
  }

  /**
   Solves with lambda on the diagonal and takes it off again. The verdict is the linear solver's on the damped
   blocks with the landmarks eliminated, and the poses get its answer. On success the increment solves the damped
   system, provided the damped landmark blocks could be inverted; in any case every block is as before.
   */
  method SolveDamped(solver: BlockSolver, doSchur: bool, inverse: Inverter, linearSolver: Normal.LinearSolver, damp: real,
                     ghost np: nat, ghost all: seq<nat>, ghost H: Matrix, ghost g: Vector)
    returns (ok: bool, ghost damped: Store, ghost asked: Matrix, ghost rhs: Vector)
    requires Solvable(solver) && SystemIs(solver, np, all, H, g) && DiagonalsPresent(solver.Hpp.blockCols)
    requires Normal.SolvesOnSuccess(linearSolver) && (!doSchur ==> |solver.Hll.colBlockIndices| == 0)
    modifies solver.Hpp, solver.Hll, solver.Hschur, solver.coefficients, solver.bschur, solver.x
    modifies solver`DInvSchur, solver`diagonalBackupPose, solver`diagonalBackupLandmark
    ensures Solvable(solver) && SystemIs(solver, np, all, H, g)
    ensures SamePattern(old(StoreOf(solver)), StoreOf(solver), np) && SameEntries(old(StoreOf(solver)), StoreOf(solver), np)
    ensures Raised(old(StoreOf(solver)), damped, damp)
    ensures IsAsked(damped, solver.Hpp.rowBlockIndices, solver.Hll.colBlockIndices, inverse, g, asked, rhs)
    ensures ok == linearSolver(Size(solver.Hpp.rowBlockIndices), asked, rhs).0
    ensures forall i :: 0 <= i < Size(solver.Hpp.rowBlockIndices) ==>
      AsVector(solver.x[..])(i) == linearSolver(Size(solver.Hpp.rowBlockIndices), asked, rhs).1(i)
    ensures Stores(damped, np, all, solver.Hpp.rowBlockIndices, solver.Hll.colBlockIndices, Damped(H, damp))
    ensures ok && Inverts(solver.Hll.colBlockIndices, damped.hll, inverse) ==>
      Solves(Size(all), Damped(H, damp), AsVector(solver.x[..]), g)
  {
    hide Stores, Raised, IsView, IsTransposedView, PatternComplete, DiagonalOnly, AreDiagonals, Inverts, Solves;
    hide SamePattern, SameEntries, Normal.SolvesOnSuccess, IsAsked;
    ghost var st := StoreOf(solver);
    Damp(solver, damp, np, all, H, g);
    damped := StoreOf(solver);
    ok, asked, rhs := SolveNormalEquations(solver, doSchur, inverse, linearSolver, np, all, Damped(H, damp), g);
    Undamp(solver, st, damp, np, all, H, g);
  }
}
