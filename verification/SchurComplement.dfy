/** Eliminating the second part of a block system [A E; E^T D] x = b by means of an inverse of D. */
module SchurComplement {
  import opened Sums
  import opened LinearAlgebra
  import opened QuadraticModel

  /** DI is a right inverse of D. */
  ghost predicate RightInverse(n: nat, D: Matrix, DI: Matrix) {
    forall i, j :: 0 <= i < n && 0 <= j < n ==> MatMul(n, D, DI)(i, j) == Delta(i, j)
  }

  ghost predicate LeftInverse(n: nat, D: Matrix, DI: Matrix) {
    forall i, j :: 0 <= i < n && 0 <= j < n ==> MatMul(n, DI, D)(i, j) == Delta(i, j)
  }

  ghost predicate IsInverse(n: nat, D: Matrix, DI: Matrix) {
    LeftInverse(n, D, DI) && RightInverse(n, D, DI)
  }

  /** The inverse of a symmetric matrix is symmetric: DI^T = DI^T (D DI) = (DI^T D^T) DI = DI. */
  lemma InverseSymmetric(n: nat, D: Matrix, DI: Matrix)
    requires SymmetricMatrix(n, D) && IsInverse(n, D, DI)
    ensures SymmetricMatrix(n, DI)
  {
    var T := Transpose(DI);
    forall i, j | 0 <= i < n && 0 <= j < n ensures DI(i, j) == DI(j, i) {
      calc {
        T(i, j);
        { TimesIdentity(n, T, MatMul(n, D, DI), i, j); }
        MatMul(n, T, MatMul(n, D, DI))(i, j);
        { MatMulAssoc(n, n, T, D, DI, i, j); }
        MatMul(n, MatMul(n, T, D), DI)(i, j);
        {
          forall k | 0 <= k < n ensures MatMul(n, T, D)(i, k) == Delta(i, k) {
            TransposedInverse(n, D, DI, i, k);
          }
          IdentityTimes(n, MatMul(n, T, D), DI, i, j);
        }
        DI(i, j);
      }
    }
  }

  lemma TransposedInverse(n: nat, D: Matrix, DI: Matrix, i: int, k: int)
    requires SymmetricMatrix(n, D) && RightInverse(n, D, DI) && 0 <= i < n && 0 <= k < n
    ensures MatMul(n, Transpose(DI), D)(i, k) == Delta(i, k)
  {
    MatMulTranspose(n, D, DI, k, i);
    MatMulCong(n, Transpose(DI), Transpose(DI), Transpose(D), D, i, k);
    assert MatMul(n, D, DI)(k, i) == Delta(k, i);
  }

  lemma TimesIdentity(n: nat, A: Matrix, I: Matrix, i: int, j: int)
    requires 0 <= j < n && forall k :: 0 <= k < n ==> I(k, j) == Delta(k, j)
    ensures MatMul(n, A, I)(i, j) == A(i, j)
  {
    MatMulCong(n, A, A, I, Identity(), i, j);
    MatMulIdentity(n, A, i, j);
  }

  lemma IdentityTimes(n: nat, I: Matrix, A: Matrix, i: int, j: int)
    requires 0 <= i < n && forall k :: 0 <= k < n ==> I(i, k) == Delta(i, k)
    ensures MatMul(n, I, A)(i, j) == A(i, j)
  {
    MatMulCong(n, I, Identity(), A, A, i, j);
    IdentityMatMul(n, A, i, j);
  }

  lemma IdentityTimesVector(n: nat, I: Matrix, x: Vector, i: int)
    requires 0 <= i < n && forall k :: 0 <= k < n ==> I(i, k) == Delta(i, k)
    ensures MatVec(n, I, x)(i) == x(i)
  {
    var X: Matrix := (k, _) => x(k);
    SumCong(0, n, Terms(I, i, x), Product(I, i, X, 0));
    IdentityTimes(n, I, X, i, 0);
  }

  // ----- The elimination

  /** What eliminating the second part subtracts from A: E DI E^T. */
  ghost function Eliminated(m: nat, E: Matrix, DI: Matrix): Matrix {
    MatMul(m, MatMul(m, E, DI), Transpose(E))
  }

  lemma EliminatedSymmetric(m: nat, E: Matrix, DI: Matrix, i: int, j: int)
    requires SymmetricMatrix(m, DI)
    ensures Eliminated(m, E, DI)(i, j) == Eliminated(m, E, DI)(j, i)
  {
    var Et := Transpose(E);
    calc {
      MatMul(m, MatMul(m, E, DI), Et)(i, j);
      { MatMulTranspose(m, MatMul(m, E, DI), Et, i, j); }
      MatMul(m, Transpose(Et), Transpose(MatMul(m, E, DI)))(j, i);
      {
        forall k | 0 <= k < m ensures Transpose(MatMul(m, E, DI))(k, i) == MatMul(m, DI, Et)(k, i) {
          MatMulTranspose(m, E, DI, i, k);
          MatMulCong(m, Transpose(DI), DI, Et, Et, k, i);
        }
        MatMulCong(m, Transpose(Et), E, Transpose(MatMul(m, E, DI)), MatMul(m, DI, Et), j, i);
      }
      MatMul(m, E, MatMul(m, DI, Et))(j, i);
      { MatMulAssoc(m, m, E, DI, Et, j, i); }
      MatMul(m, MatMul(m, E, DI), Et)(j, i);
    }
  }

  /** What is left of the second right hand side once xp is known: bl - E^T xp. */
  ghost function Residual(n: nat, E: Matrix, xp: Vector, bl: Vector): Vector {
    Minus(bl, MatVec(n, Transpose(E), xp))
  }

  /** xl solves the second part. */
  ghost predicate BackSubstituted(n: nat, m: nat, E: Matrix, DI: Matrix, xp: Vector, bl: Vector, xl: Vector) {
    forall k :: 0 <= k < m ==> xl(k) == MatVec(m, DI, Residual(n, E, xp, bl))(k)
  }

  /** xp solves the reduced system with the right hand side bp - E DI bl. */
  ghost predicate SolvesReduced(n: nat, m: nat, S: Matrix, E: Matrix, DI: Matrix, xp: Vector, bp: Vector, bl: Vector) {
    forall i :: 0 <= i < n ==> MatVec(n, S, xp)(i) == bp(i) - MatVec(m, E, MatVec(m, DI, bl))(i)
  }

  lemma BackSubstitutedCong(n: nat, m: nat, E: Matrix, DI: Matrix, xp: Vector, xp': Vector, bl: Vector, xl: Vector)
    requires BackSubstituted(n, m, E, DI, xp, bl, xl) && forall i :: 0 <= i < n ==> xp(i) == xp'(i)
    ensures BackSubstituted(n, m, E, DI, xp', bl, xl)
  {
    hide MatVec;
    forall k | 0 <= k < m ensures MatVec(m, DI, Residual(n, E, xp, bl))(k) == MatVec(m, DI, Residual(n, E, xp', bl))(k) {
      forall l ensures Residual(n, E, xp, bl)(l) == Residual(n, E, xp', bl)(l) {
        MatVecCong(n, Transpose(E), Transpose(E), xp, xp', l);
      }
      MatVecCong(m, DI, DI, Residual(n, E, xp, bl), Residual(n, E, xp', bl), k);
    }
  }

  /** S and g are the first part of [A E; E^T D] x = b with the second part eliminated: A - E DI E^T and bp - E DI bl. */
  ghost predicate IsReducedSystem(n: nat, m: nat, A: Matrix, E: Matrix, DI: Matrix, b: Vector, S: Matrix, g: Vector) {
    && (forall i, j :: 0 <= i <= j < n ==> S(j, i) == S(i, j) == A(i, j) - Eliminated(m, E, DI)(i, j))
    && (forall i :: 0 <= i < n ==> g(i) == b(i) - MatVec(m, E, MatVec(m, DI, FromOffset(b, n)))(i))
  }

  lemma ReducedCong(n: nat, m: nat, A: Matrix, E: Matrix, DI: Matrix, b: Vector, b': Vector, S: Matrix, g: Vector)
    requires IsReducedSystem(n, m, A, E, DI, b, S, g) && forall i :: 0 <= i < n + m ==> b(i) == b'(i)
    ensures IsReducedSystem(n, m, A, E, DI, b', S, g)
  {
    hide MatVec, Eliminated;
    forall i | 0 <= i < n ensures g(i) == b'(i) - MatVec(m, E, MatVec(m, DI, FromOffset(b', n)))(i) {
      forall k ensures MatVec(m, DI, FromOffset(b, n))(k) == MatVec(m, DI, FromOffset(b', n))(k) {
        MatVecCong(m, DI, DI, FromOffset(b, n), FromOffset(b', n), k);
      }
      MatVecCong(m, E, E, MatVec(m, DI, FromOffset(b, n)), MatVec(m, DI, FromOffset(b', n)), i);
    }
  }

  /** Where there is no second part nothing is eliminated. */
  lemma NothingToReduce(n: nat, A: Matrix, E: Matrix, DI: Matrix, b: Vector, S: Matrix)
    requires forall i, j :: 0 <= i <= j < n ==> S(j, i) == S(i, j) == A(i, j)
    ensures IsReducedSystem(n, 0, A, E, DI, b, S, b)
  {
  }

  lemma MatVecMinus(n: nat, A: Matrix, x: Vector, y: Vector, i: int)
    ensures MatVec(n, A, Minus(x, y))(i) == MatVec(n, A, x)(i) - MatVec(n, A, y)(i)
  {
    MatVecLinear(n, A, -1.0, x, y, i);
    forall k ensures Terms(A, i, Minus(x, y))(k) == Terms(A, i, Plus(x, Scale(-1.0, y)))(k) {
      assert Minus(x, y)(k) == Plus(x, Scale(-1.0, y))(k);
    }
    SumCong(0, n, Terms(A, i, Minus(x, y)), Terms(A, i, Plus(x, Scale(-1.0, y))));
  }

  lemma MatVecCong(n: nat, A: Matrix, A': Matrix, x: Vector, x': Vector, i: int)
    requires forall k :: 0 <= k < n ==> A(i, k) == A'(i, k) && x(k) == x'(k)
    ensures MatVec(n, A, x)(i) == MatVec(n, A', x')(i)
  {
    SumCong(0, n, Terms(A, i, x), Terms(A', i, x'));
  }

  lemma MatVecDifference(n: nat, A: Matrix, B: Matrix, C: Matrix, x: Vector, i: int)
    requires forall k :: 0 <= k < n ==> A(i, k) == B(i, k) - C(i, k)
    ensures MatVec(n, A, x)(i) == MatVec(n, B, x)(i) - MatVec(n, C, x)(i)
  {
    forall k | 0 <= k < n ensures Terms(B, i, x)(k) == Terms(A, i, x)(k) + Terms(C, i, x)(k) {
      LinearTerm(x(k), A(i, k), 1.0, C(i, k));
    }
    SumAdd(0, n, Terms(A, i, x), Terms(C, i, x), Terms(B, i, x));
  }

  /** E DI (bl - E^T xp) = E DI bl - (E DI E^T) xp. */
  lemma EliminatedTimes(n: nat, m: nat, E: Matrix, DI: Matrix, xp: Vector, bl: Vector, xl: Vector, i: int)
    requires BackSubstituted(n, m, E, DI, xp, bl, xl)
    ensures MatVec(m, E, xl)(i) == MatVec(m, E, MatVec(m, DI, bl))(i) - MatVec(n, Eliminated(m, E, DI), xp)(i)
  {
    var Et, r := Transpose(E), Residual(n, E, xp, bl);
    var v := MatVec(n, Et, xp);
    calc {
      MatVec(m, E, xl)(i);
      { MatVecCong(m, E, E, xl, MatVec(m, DI, r), i); }
      MatVec(m, E, MatVec(m, DI, r))(i);
      { MatVecAssoc(m, m, E, DI, r, i); }
      MatVec(m, MatMul(m, E, DI), r)(i);
      { MatVecMinus(m, MatMul(m, E, DI), bl, v, i); }
      MatVec(m, MatMul(m, E, DI), bl)(i) - MatVec(m, MatMul(m, E, DI), v)(i);
      { MatVecAssoc(m, m, E, DI, bl, i); }
      MatVec(m, E, MatVec(m, DI, bl))(i) - MatVec(m, MatMul(m, E, DI), v)(i);
      { MatVecAssoc(m, n, MatMul(m, E, DI), Et, xp, i); }
      MatVec(m, E, MatVec(m, DI, bl))(i) - MatVec(n, Eliminated(m, E, DI), xp)(i);
    }
  }

  /** The two parts together solve the whole system. */
  lemma SchurIsExact(n: nat, m: nat, A: Matrix, E: Matrix, D: Matrix, DI: Matrix, S: Matrix,
                     xp: Vector, xl: Vector, bp: Vector, bl: Vector)
    requires RightInverse(m, D, DI)
    requires forall i, j :: 0 <= i < n && 0 <= j < n ==> S(i, j) == A(i, j) - Eliminated(m, E, DI)(i, j)
    requires SolvesReduced(n, m, S, E, DI, xp, bp, bl) && BackSubstituted(n, m, E, DI, xp, bl, xl)
    ensures forall i :: 0 <= i < n ==> MatVec(n, A, xp)(i) + MatVec(m, E, xl)(i) == bp(i)
    ensures forall k :: 0 <= k < m ==> MatVec(n, Transpose(E), xp)(k) + MatVec(m, D, xl)(k) == bl(k)
  {
    forall i | 0 <= i < n ensures MatVec(n, A, xp)(i) + MatVec(m, E, xl)(i) == bp(i) {
      MatVecDifference(n, S, A, Eliminated(m, E, DI), xp, i);
      EliminatedTimes(n, m, E, DI, xp, bl, xl, i);
      assert MatVec(n, S, xp)(i) == bp(i) - MatVec(m, E, MatVec(m, DI, bl))(i);
    }
    forall k | 0 <= k < m ensures MatVec(n, Transpose(E), xp)(k) + MatVec(m, D, xl)(k) == bl(k) {
      SecondRow(n, m, E, D, DI, xp, xl, bl, k);
    }
  }

  lemma SecondRow(n: nat, m: nat, E: Matrix, D: Matrix, DI: Matrix, xp: Vector, xl: Vector, bl: Vector, k: int)
    requires RightInverse(m, D, DI) && BackSubstituted(n, m, E, DI, xp, bl, xl) && 0 <= k < m
    ensures MatVec(n, Transpose(E), xp)(k) + MatVec(m, D, xl)(k) == bl(k)
  {
    var r := Residual(n, E, xp, bl);
    MatVecCong(m, D, D, xl, MatVec(m, DI, r), k);
    MatVecAssoc(m, m, D, DI, r, k);
    IdentityTimesVector(m, MatMul(m, D, DI), r, k);
  }
}
