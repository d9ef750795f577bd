/**
 Why a symmetric matrix S is the inverse of A * A^T, for a lower triangular A, as soon as the upper
 triangle of A^T * S is the reciprocal diagonal of A.
 */
module TriangularInverse {
  import opened Sums
  import opened LinearAlgebra

  ghost predicate LowerTriangular(n: nat, A: Matrix)
  {
    && (forall i, j :: 0 <= i < j < n ==> A(i, j) == 0.0)
    && (forall i :: 0 <= i < n ==> A(i, i) != 0.0)
  }

  /** What the recursion establishes row by row: A^T * S is 1 / A on the diagonal and 0 above it. */
  ghost predicate UpperRows(n: nat, A: Matrix, S: Matrix)
  {
    forall r, c :: 0 <= r <= c < n ==> A(r, r) * MatMul(n, Transpose(A), S)(r, c) == Delta(r, c)
  }

  lemma SandwichUpper(n: nat, A: Matrix, S: Matrix, r: int, q: int)
    requires LowerTriangular(n, A) && UpperRows(n, A, S) && 0 <= r <= q < n
    ensures MatMul(n, Transpose(A), MatMul(n, S, A))(r, q) == Delta(r, q)
  {
    hide *;
    var TS := MatMul(n, Transpose(A), S);
    var terms := Product(TS, r, A, q);
    forall c | 0 <= c < n && c != q
      ensures terms(c) == 0.0
    {
      ZeroTerm(n, A, S, r, q, c);
    }
    MatMulAssoc(n, n, Transpose(A), S, A, r, q);
    MatMulIsSum(n, TS, A, r, q);
    SumSingle(0, n, q, terms);
    DiagonalTerm(n, A, S, r, q);
  }

  lemma MatMulIsSum(n: nat, A: Matrix, B: Matrix, i: int, j: int)
    ensures MatMul(n, A, B)(i, j) == Sum(0, n, Product(A, i, B, j))
  {
  }

  lemma DiagonalTerm(n: nat, A: Matrix, S: Matrix, r: int, q: int)
    requires LowerTriangular(n, A) && UpperRows(n, A, S) && 0 <= r <= q < n
    ensures Product(MatMul(n, Transpose(A), S), r, A, q)(q) == Delta(r, q)
  {
    if r != q {
      ZeroAbove(n, A, S, r, q);
    }
  }

  lemma ZeroTerm(n: nat, A: Matrix, S: Matrix, r: int, q: int, c: int)
    requires LowerTriangular(n, A) && UpperRows(n, A, S) && 0 <= r <= q < n && 0 <= c < n && c != q
    ensures Product(MatMul(n, Transpose(A), S), r, A, q)(c) == 0.0
  {
    if q < c {
      ZeroAbove(n, A, S, r, c);
    } else {
      assert A(c, q) == 0.0;
    }
  }

  lemma ZeroAbove(n: nat, A: Matrix, S: Matrix, r: int, c: int)
    requires LowerTriangular(n, A) && UpperRows(n, A, S) && 0 <= r < c < n
    ensures MatMul(n, Transpose(A), S)(r, c) == 0.0
  {
    var t := MatMul(n, Transpose(A), S)(r, c);
    assert A(r, r) * t == Delta(r, c);
  }

  lemma SandwichSymmetric(n: nat, A: Matrix, S: Matrix, r: int, q: int)
    requires SymmetricMatrix(n, S) && 0 <= r < n && 0 <= q < n
    ensures MatMul(n, Transpose(A), MatMul(n, S, A))(r, q) == MatMul(n, Transpose(A), MatMul(n, S, A))(q, r)
  {
    var At := Transpose(A);
    MatMulAssoc(n, n, At, S, A, r, q);
    MatMulTranspose(n, MatMul(n, At, S), A, r, q);
    forall k | 0 <= k < n
      ensures Transpose(MatMul(n, At, S))(k, r) == MatMul(n, S, A)(k, r)
    {
      MatMulTranspose(n, At, S, r, k);
      MatMulCong(n, Transpose(S), S, Transpose(At), A, k, r);
    }
    MatMulCong(n, At, At, Transpose(MatMul(n, At, S)), MatMul(n, S, A), q, r);
  }

  /** A^T * S * A is the identity. */
  lemma SandwichIsIdentity(n: nat, A: Matrix, S: Matrix, r: int, q: int)
    requires LowerTriangular(n, A) && UpperRows(n, A, S) && SymmetricMatrix(n, S) && 0 <= r < n && 0 <= q < n
    ensures MatMul(n, Transpose(A), MatMul(n, S, A))(r, q) == Delta(r, q)
  {
    if r <= q {
      SandwichUpper(n, A, S, r, q);
    } else {
      SandwichSymmetric(n, A, S, r, q);
      SandwichUpper(n, A, S, q, r);
    }
  }

  /** Back substitution: A^T maps only the zero vector to zero. */
  lemma {:induction false} BackSubstitution(n: nat, A: Matrix, x: Vector, from: int)
    requires LowerTriangular(n, A) && 0 <= from <= n
    requires forall r :: 0 <= r < n ==> MatVec(n, Transpose(A), x)(r) == 0.0
    ensures forall i :: from <= i < n ==> x(i) == 0.0
    decreases n - from
  {
    if from < n {
      BackSubstitution(n, A, x, from + 1);
      var row := Terms(Transpose(A), from, x);
      SumSingle(0, n, from, row);
      assert MatVec(n, Transpose(A), x)(from) == 0.0;
      assert A(from, from) * x(from) == 0.0;
    }
  }

  ghost function Gram(n: nat, A: Matrix): Matrix {
    MatMul(n, A, Transpose(A))
  }

  lemma TransposeTimesOuter(n: nat, A: Matrix, S: Matrix, r: int, j: int)
    requires LowerTriangular(n, A) && UpperRows(n, A, S) && SymmetricMatrix(n, S) && 0 <= r < n && 0 <= j < n
    ensures MatMul(n, Transpose(A), MatMul(n, MatMul(n, S, A), Transpose(A)))(r, j) == Transpose(A)(r, j)
  {
    var At, SA := Transpose(A), MatMul(n, S, A);
    MatMulAssoc(n, n, At, SA, At, r, j);
    forall k | 0 <= k < n
      ensures MatMul(n, At, SA)(r, k) == Identity()(r, k)
    {
      SandwichIsIdentity(n, A, S, r, k);
    }
    MatMulCong(n, MatMul(n, At, SA), Identity(), At, At, r, j);
    IdentityMatMul(n, At, r, j);
  }

  lemma {:induction false} SubtractIdentity(n: nat, B: Matrix, X: Matrix, x: Vector, r: int, j: int)
    requires 0 <= j < n
    requires forall k :: 0 <= k < n ==> x(k) == X(k, j) - Identity()(k, j)
    ensures MatVec(n, B, x)(r) == MatMul(n, B, X)(r, j) - B(r, j)
  {
    hide Identity;
    MatMulIdentity(n, B, r, j);
    forall k | 0 <= k < n
      ensures Product(B, r, X, j)(k) == Terms(B, r, x)(k) + Product(B, r, Identity(), j)(k)
    {
      SplitFactor(B(r, k), X(k, j), x(k), Identity()(k, j));
    }
    SumAdd(0, n, Terms(B, r, x), Product(B, r, Identity(), j), Product(B, r, X, j));
  }

  lemma SplitFactor(b: real, w: real, u: real, v: real)
    requires u == w - v
    ensures b * w == b * u + b * v
  {
  }

  /** A^T * (S * A * A^T - I) == 0, so S * A * A^T == I. */
  lemma LeftInverse(n: nat, A: Matrix, S: Matrix, i: int, j: int)
    requires LowerTriangular(n, A) && UpperRows(n, A, S) && SymmetricMatrix(n, S) && 0 <= i < n && 0 <= j < n
    ensures MatMul(n, S, Gram(n, A))(i, j) == Delta(i, j)
  {
    var At := Transpose(A);
    var X := MatMul(n, MatMul(n, S, A), At);
    var x: Vector := k => X(k, j) - Identity()(k, j);
    forall r | 0 <= r < n
      ensures MatVec(n, At, x)(r) == 0.0
    {
      TransposeTimesOuter(n, A, S, r, j);
      SubtractIdentity(n, At, X, x, r, j);
    }
    BackSubstitution(n, A, x, 0);
    MatMulAssoc(n, n, S, A, At, i, j);
    assert x(i) == 0.0;
  }

  lemma TwoSidedInverse(n: nat, A: Matrix, S: Matrix, i: int, j: int)
    requires LowerTriangular(n, A) && UpperRows(n, A, S) && SymmetricMatrix(n, S) && 0 <= i < n && 0 <= j < n
    ensures MatMul(n, S, Gram(n, A))(i, j) == Delta(i, j)
    ensures MatMul(n, Gram(n, A), S)(i, j) == Delta(i, j)
  {
    LeftInverse(n, A, S, i, j);
    LeftInverse(n, A, S, j, i);
    MatMulTranspose(n, Gram(n, A), S, i, j);
    forall k | 0 <= k < n
      ensures Transpose(Gram(n, A))(k, i) == Gram(n, A)(k, i)
    {
      MatMulTranspose(n, A, Transpose(A), i, k);
      MatMulCong(n, Transpose(Transpose(A)), A, Transpose(A), Transpose(A), k, i);
    }
    MatMulCong(n, Transpose(S), S, Transpose(Gram(n, A)), Gram(n, A), j, i);
  }
}
