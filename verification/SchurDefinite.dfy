/**
 Why a Cholesky factorisation may be applied to what the elimination leaves: the Schur complement of a
 positive definite matrix is positive definite, so damping makes every reduced system solvable.
 */
module SchurDefinite {
  import opened Sums
  import opened LinearAlgebra
  import opened BlockLayout
  import opened SparseBlocks
  import opened QuadraticModel
  import opened DampedNewton
  import opened SchurComplement
  import opened DiagonalBlocks
  import opened SchurElimination
  import opened BlockSolver
  import opened SystemStore
  import opened LeastSquares
  import Normal = NormalEquations

  ghost predicate IsZero(n: nat, x: Vector) {
    forall i :: 0 <= i < n ==> x(i) == 0.0
  }

  ghost predicate PositiveDefinite(n: nat, H: Matrix) {
    forall x: Vector :: Form(n, H, x, x) > 0.0 || IsZero(n, x)
  }

  /** The linear solver succeeds on every symmetric positive definite matrix. */
  ghost predicate Complete(solver: Normal.LinearSolver) {
    forall n, A, b :: SymmetricMatrix(n, A) && PositiveDefinite(n, A) ==> solver(n, A, b).0
  }

  lemma DefiniteAt(n: nat, H: Matrix, x: Vector)
    requires PositiveDefinite(n, H)
    ensures Form(n, H, x, x) > 0.0 || IsZero(n, x)
  {
  }

  // ----- Damping a semidefinite matrix

  lemma SquaresPositive(n: nat, x: Vector, i: int)
    requires 0 <= i < n && x(i) != 0.0
    ensures SquaredNorm(n, x) > 0.0
  {
    var f := Products(x, x);
    forall k ensures f(k) >= 0.0 {
      SquareNonNegative(x(k));
    }
    SquarePositive(x, i);
    DotIsSum(n, x, x);
    SumSplit(0, i, n, f);
    SumSplit(i, i + 1, n, f);
    SumNonNegative(0, i, f);
    SumNonNegative(i + 1, n, f);
    SumSingle(i, i + 1, i, f);
  }

  lemma SquarePositive(x: Vector, i: int)
    requires x(i) != 0.0
    ensures Products(x, x)(i) > 0.0
  {
    SquareNonNegative(x(i));
    NonZeroSquare(x(i), 1.0 / x(i), Products(x, x)(i));
  }

  lemma NonZeroSquare(a: real, c: real, square: real)
    requires c * a == 1.0 && square == a * a && square >= 0.0
    ensures square > 0.0
  {
    SquareTimesInverse(a, c, square);
  }

  lemma SquareTimesInverse(a: real, c: real, square: real)
    requires c * a == 1.0 && square == a * a
    ensures c * square == a
  {
    assert c * square == (c * a) * a;
  }

  /** H + lambda I is positive definite. */
  lemma DampedIsDefinite(n: nat, H: Matrix, damp: real)
    requires PositiveSemidefinite(n, H) && damp > 0.0
    ensures PositiveDefinite(n, Damped(H, damp))
  {
    hide Form, Damped, SquaredNorm;
    forall x: Vector | !IsZero(n, x) ensures Form(n, Damped(H, damp), x, x) > 0.0 {
      var i :| 0 <= i < n && x(i) != 0.0;
      SquaresPositive(n, x, i);
      DampedForm(n, H, damp, x);
      SemidefiniteAt(n, H, x);
      PositiveProduct(damp, SquaredNorm(n, x));
    }
  }

  lemma PositiveProduct(a: real, b: real)
    requires a > 0.0 && b > 0.0
    ensures a * b > 0.0
  {
  }

  // ----- The Schur complement

  /** x on the first part and xl on the second. */
  ghost function Joined(n: nat, x: Vector, xl: Vector): Vector {
    i => if i < n then x(i) else xl(i - n)
  }

  /** The part of x that the second rows leave: xl = -DI E^T x. */
  ghost function Shadow(n: nat, m: nat, E: Matrix, DI: Matrix, x: Vector): Vector {
    MatVec(m, DI, Residual(n, E, x, Nothing()))
  }

  ghost function Nothing(): Vector {
    i => 0.0
  }

  lemma TimesNothing(m: nat, A: Matrix, x: Vector, i: int)
    requires forall k :: 0 <= k < m ==> x(k) == 0.0
    ensures MatVec(m, A, x)(i) == 0.0
  {
    forall k | 0 <= k < m ensures Terms(A, i, x)(k) == 0.0 {
      assert x(k) == 0.0;
    }
    SumZero(0, m, Terms(A, i, x));
  }

  /** H takes x and its shadow to S x on the first part and to nothing on the second. */
  lemma ShadowSolves(n: nat, m: nat, H: Matrix, A: Matrix, E: Matrix, D: Matrix, DI: Matrix, S: Matrix, x: Vector)
    requires RightInverse(m, D, DI)
    requires forall i, j :: 0 <= i < n && 0 <= j < n ==> S(i, j) == A(i, j) - Eliminated(m, E, DI)(i, j)
    requires forall p, q :: 0 <= p < n && 0 <= q < n ==> A(p, q) == H(p, q)
    requires forall p, k :: 0 <= p < n && 0 <= k < m ==> E(p, k) == H(p, n + k)
    requires forall p, k :: 0 <= p < n && 0 <= k < m ==> E(p, k) == H(n + k, p)
    requires forall k, k' :: 0 <= k < m && 0 <= k' < m ==> D(k, k') == H(n + k, n + k')
    ensures Solves(n + m, H, Joined(n, x, Shadow(n, m, E, DI, x)), Joined(n, MatVec(n, S, x), Nothing()))
  {
    var xl, y, b := Shadow(n, m, E, DI, x), Joined(n, x, Shadow(n, m, E, DI, x)), Joined(n, MatVec(n, S, x), Nothing());
    hide MatVec, Eliminated, RightInverse, Shadow;
    assert SolvesReduced(n, m, S, E, DI, x, MatVec(n, S, x), Nothing()) by {
      forall i | 0 <= i < n ensures MatVec(m, E, MatVec(m, DI, Nothing()))(i) == 0.0 {
        forall k | 0 <= k < m ensures MatVec(m, DI, Nothing())(k) == 0.0 {
          TimesNothing(m, DI, Nothing(), k);
        }
        TimesNothing(m, E, MatVec(m, DI, Nothing()), i);
      }
    }
    ShadowIsBackSubstituted(n, m, E, DI, x);
    SchurIsExact(n, m, A, E, D, DI, S, x, xl, MatVec(n, S, x), Nothing());
    StoredJoined(n, m, A, E, D, x, xl, b);
    WholeIsNormalEquations(n, m, H, A, E, D, y, b, b);
  }

  lemma ShadowIsBackSubstituted(n: nat, m: nat, E: Matrix, DI: Matrix, x: Vector)
    ensures BackSubstituted(n, m, E, DI, x, Nothing(), Shadow(n, m, E, DI, x))
  {
  }

  lemma StoredJoined(n: nat, m: nat, A: Matrix, E: Matrix, D: Matrix, x: Vector, xl: Vector, b: Vector)
    requires forall i :: 0 <= i < n ==> MatVec(n, A, x)(i) + MatVec(m, E, xl)(i) == b(i)
    requires forall k :: 0 <= k < m ==> MatVec(n, Transpose(E), x)(k) + MatVec(m, D, xl)(k) == b(n + k)
    ensures SolvesWhole(n, m, A, E, D, Joined(n, x, xl), b)
  {
    var y := Joined(n, x, xl);
    hide MatVec;
    forall i | 0 <= i < n ensures MatVec(n, A, y)(i) + MatVec(m, E, FromOffset(y, n))(i) == b(i) {
      MatVecCong(n, A, A, x, y, i);
      MatVecCong(m, E, E, xl, FromOffset(y, n), i);
    }
    forall k | 0 <= k < m ensures MatVec(n, Transpose(E), y)(k) + MatVec(m, D, FromOffset(y, n))(k) == b(n + k) {
      MatVecCong(n, Transpose(E), Transpose(E), x, y, k);
      MatVecCong(m, D, D, xl, FromOffset(y, n), k);
    }
  }

  lemma JoinedDot(n: nat, m: nat, x: Vector, xl: Vector, v: Vector)
    ensures Dot(n + m, Joined(n, x, xl), Joined(n, v, Nothing())) == Dot(n, x, v)
  {
    var f := Products(Joined(n, x, xl), Joined(n, v, Nothing()));
    forall k | n <= k ensures f(k) == 0.0 {
      TimesZero(Joined(n, x, xl)(k), Joined(n, v, Nothing())(k));
    }
    forall k | k < n ensures f(k) == Products(x, v)(k) {
      assert Joined(n, x, xl)(k) == x(k) && Joined(n, v, Nothing())(k) == v(k);
    }
    hide Joined, Products;
    DotIsSum(n + m, Joined(n, x, xl), Joined(n, v, Nothing()));
    DotIsSum(n, x, v);
    SumSplit(0, n, n + m, f);
    SumCong(0, n, f, Products(x, v));
    SumZero(n, n + m, f);
  }

  lemma TimesZero(a: real, b: real)
    requires b == 0.0
    ensures a * b == 0.0
  {
  }

  /** x^T S x is the form of the whole matrix at x and its shadow. */
  lemma SchurForm(n: nat, m: nat, H: Matrix, S: Matrix, x: Vector, xl: Vector)
    requires Solves(n + m, H, Joined(n, x, xl), Joined(n, MatVec(n, S, x), Nothing()))
    ensures Form(n, S, x, x) == Form(n + m, H, Joined(n, x, xl), Joined(n, x, xl))
  {
    hide MatVec;
    var y := Joined(n, x, xl);
    DotCong(n + m, y, y, MatVec(n + m, H, y), Joined(n, MatVec(n, S, x), Nothing()));
    JoinedDot(n, m, x, xl, MatVec(n, S, x));
  }

  /** The Schur complement of a positive definite matrix is positive definite. */
  lemma SchurIsDefinite(n: nat, m: nat, H: Matrix, A: Matrix, E: Matrix, D: Matrix, DI: Matrix, S: Matrix)
    requires PositiveDefinite(n + m, H) && RightInverse(m, D, DI)
    requires forall i, j :: 0 <= i < n && 0 <= j < n ==> S(i, j) == A(i, j) - Eliminated(m, E, DI)(i, j)
    requires forall p, q :: 0 <= p < n && 0 <= q < n ==> A(p, q) == H(p, q)
    requires forall p, k :: 0 <= p < n && 0 <= k < m ==> E(p, k) == H(p, n + k)
    requires forall p, k :: 0 <= p < n && 0 <= k < m ==> E(p, k) == H(n + k, p)
    requires forall k, k' :: 0 <= k < m && 0 <= k' < m ==> D(k, k') == H(n + k, n + k')
    ensures PositiveDefinite(n, S)
  {
    hide Form, Eliminated, RightInverse, Shadow, Solves, PositiveDefinite;
    forall x: Vector ensures Form(n, S, x, x) > 0.0 || IsZero(n, x) {
      var y := Joined(n, x, Shadow(n, m, E, DI, x));
      ShadowSolves(n, m, H, A, E, D, DI, S, x);
      SchurForm(n, m, H, S, x, Shadow(n, m, E, DI, x));
      DefiniteAt(n + m, H, y);
      if IsZero(n + m, y) {
        forall i | 0 <= i < n ensures x(i) == 0.0 {
          assert y(i) == 0.0;
        }
      }
    }
    FormsPositive(n, S);
  }

  lemma FormsPositive(n: nat, S: Matrix)
    requires forall x: Vector :: Form(n, S, x, x) > 0.0 || IsZero(n, x)
    ensures PositiveDefinite(n, S)
  {
  }

  // ----- What the linear solver is asked

  lemma AskedEntry(n: nat, m: nat, A: Matrix, E: Matrix, DI: Matrix, b: Vector, S: Matrix, g: Vector, i: int, j: int)
    requires IsReducedSystem(n, m, A, E, DI, b, S, g) && SymmetricMatrix(m, DI) && 0 <= i < n && 0 <= j < n
    ensures S(i, j) == S(j, i) == Upper(A)(i, j) - Eliminated(m, E, DI)(i, j)
  {
    hide Eliminated;
    EliminatedSymmetric(m, E, DI, i, j);
  }

  lemma AskedParts(st: Store, poseEnds: seq<nat>, landmarkEnds: seq<nat>, inverse: Inverter, g: Vector, asked: Matrix, rhs: Vector)
    requires IsAsked(st, poseEnds, landmarkEnds, inverse, g, asked, rhs)
    ensures DiagonalOnly(st.hll) && |st.hll| == |landmarkEnds| && |st.hpp| == |poseEnds|
    ensures ValidBlocks(poseEnds, poseEnds, st.hpp) && ValidBlocks(poseEnds, landmarkEnds, st.hpl)
    ensures IsReducedSystem(Size(poseEnds), Size(landmarkEnds), Dense(poseEnds, poseEnds, st.hpp), Dense(poseEnds, landmarkEnds, st.hpl),
                            DiagonalDense(landmarkEnds, Inverses(landmarkEnds, st.hll, inverse)), g, asked, rhs)
  {
  }

  lemma LandmarksInverted(st: Store, poseEnds: seq<nat>, landmarkEnds: seq<nat>, inverse: Inverter)
    requires ValidBlocks(poseEnds, poseEnds, st.hpp) && ValidBlocks(poseEnds, landmarkEnds, st.hpl)
    requires |st.hll| == |landmarkEnds| && DiagonalOnly(st.hll) && Invertible(landmarkEnds, st.hll, inverse)
    ensures SymmetricMatrix(Size(landmarkEnds), DiagonalDense(landmarkEnds, Inverses(landmarkEnds, st.hll, inverse)))
    ensures RightInverse(Size(landmarkEnds), Dense(landmarkEnds, landmarkEnds, st.hll),
                         DiagonalDense(landmarkEnds, Inverses(landmarkEnds, st.hll, inverse)))
  {
    hide SymmetricMatrix, RightInverse, Invertible, ValidBlocks, Entry;
    LandmarkInverses(Context(poseEnds, landmarkEnds, st.hpp, st.hpl, Inverses(landmarkEnds, st.hll, inverse)), st.hll, inverse);
  }

  lemma EntriesSymmetric(n: nat, A: Matrix)
    requires forall p, q :: 0 <= p < n && 0 <= q < n ==> A(p, q) == A(q, p)
    ensures SymmetricMatrix(n, A)
  {
  }

  /** The reduced system of a positive definite store is symmetric and positive definite. */
  lemma AskedIsDefinite(st: Store, np: nat, all: seq<nat>, poseEnds: seq<nat>, landmarkEnds: seq<nat>, H: Matrix,
                        inverse: Inverter, g: Vector, asked: Matrix, rhs: Vector)
    requires Stores(st, np, all, poseEnds, landmarkEnds, H)
    requires IsAsked(st, poseEnds, landmarkEnds, inverse, g, asked, rhs)
    requires Inverts(landmarkEnds, st.hll, inverse) && PositiveDefinite(Size(all), H)
    ensures SymmetricMatrix(Size(poseEnds), asked) && PositiveDefinite(Size(poseEnds), asked)
  {
    hide *;
    var n, m := Size(poseEnds), Size(landmarkEnds);
    var A, E, D := Dense(poseEnds, poseEnds, st.hpp), Dense(poseEnds, landmarkEnds, st.hpl), Dense(landmarkEnds, landmarkEnds, st.hll);
    LayoutParts(st, np, all, poseEnds, landmarkEnds, H);
    TotalSize(all, np, poseEnds, landmarkEnds);
    AskedParts(st, poseEnds, landmarkEnds, inverse, g, asked, rhs);
    var DI := DiagonalDense(landmarkEnds, Inverses(landmarkEnds, st.hll, inverse));
    LandmarkBlocksSymmetric(st, np, all, poseEnds, landmarkEnds, H, inverse);
    LandmarksInverted(st, poseEnds, landmarkEnds, inverse);
    forall p, q | 0 <= p < n && 0 <= q < n
      ensures Upper(A)(p, q) == H(p, q) && asked(p, q) == asked(q, p) == Upper(A)(p, q) - Eliminated(m, E, DI)(p, q)
    {
      PoseEntries(st, np, all, poseEnds, landmarkEnds, H, p, q);
      AskedEntry(n, m, A, E, DI, g, asked, rhs, p, q);
    }
    forall p, k | 0 <= p < n && 0 <= k < m ensures E(p, k) == H(p, n + k) == H(n + k, p) {
      CrossEntries(st, np, all, poseEnds, landmarkEnds, H, p, k);
      SymmetricAt(st, np, all, poseEnds, landmarkEnds, H, p, n + k);
    }
    forall k, k' | 0 <= k < m && 0 <= k' < m ensures D(k, k') == H(n + k, n + k') {
      LandmarkEntries(st, np, all, poseEnds, landmarkEnds, H, k, k');
    }
    SchurIsDefinite(n, m, H, Upper(A), E, D, DI, asked);
    EntriesSymmetric(n, asked);
  }

  /** A linear solver that can factorise definite matrices never fails on a damped system. */
  lemma DampedIsSolved(st: Store, np: nat, all: seq<nat>, poseEnds: seq<nat>, landmarkEnds: seq<nat>, H: Matrix, damp: real,
                       inverse: Inverter, linearSolver: Normal.LinearSolver, g: Vector, asked: Matrix, rhs: Vector)
    requires Complete(linearSolver) && PositiveSemidefinite(Size(all), H) && damp > 0.0
    requires Stores(st, np, all, poseEnds, landmarkEnds, Damped(H, damp)) && Inverts(landmarkEnds, st.hll, inverse)
    requires IsAsked(st, poseEnds, landmarkEnds, inverse, g, asked, rhs)
    ensures linearSolver(Size(poseEnds), asked, rhs).0
  {
    hide Stores, Inverts, IsAsked, PositiveSemidefinite, PositiveDefinite, SymmetricMatrix, Damped;
    DampedIsDefinite(Size(all), H, damp);
    AskedIsDefinite(st, np, all, poseEnds, landmarkEnds, Damped(H, damp), inverse, g, asked, rhs);
  }
}
