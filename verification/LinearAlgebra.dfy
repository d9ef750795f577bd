/** Dense real matrices and vectors as functions of their indices; sizes are given to each operation. */
module LinearAlgebra {
  import opened Sums

  type Matrix = (int, int) -> real
  type Vector = int -> real

  function Transpose(A: Matrix): Matrix {
    (i, j) => A(j, i)
  }

  ghost predicate SymmetricMatrix(n: nat, A: Matrix) {
    forall i, j :: 0 <= i < n && 0 <= j < n ==> A(i, j) == A(j, i)
  }

  function Delta(i: int, j: int): real {
    if i == j then 1.0 else 0.0
  }

  function Product(A: Matrix, i: int, B: Matrix, j: int): Vector {
    k => A(i, k) * B(k, j)
  }

  /** The product of A and B over an inner dimension n. */
  function MatMul(n: nat, A: Matrix, B: Matrix): Matrix {
    (i, j) => Sum(0, n, Product(A, i, B, j))
  }

  function Terms(A: Matrix, i: int, x: Vector): Vector {
    k => A(i, k) * x(k)
  }

  function MatVec(n: nat, A: Matrix, x: Vector): Vector {
    i => Sum(0, n, Terms(A, i, x))
  }

  function Dot(n: nat, x: Vector, y: Vector): real {
    Sum(0, n, k => x(k) * y(k))
  }

  function FromOffset(x: Vector, offset: int): Vector {
    i => x(offset + i)
  }

  lemma MatMulAssoc(n: nat, m: nat, A: Matrix, B: Matrix, C: Matrix, i: int, j: int)
    ensures MatMul(m, MatMul(n, A, B), C)(i, j) == MatMul(n, A, MatMul(m, B, C))(i, j)
  {
    var F := (k: int, l: int) => A(i, k) * B(k, l) * C(l, j);
    forall l | 0 <= l < m
      ensures Product(MatMul(n, A, B), i, C, j)(l) == Sum(0, n, k => F(k, l))
    {
      SumScale(0, n, C(l, j), Product(A, i, B, l), k => F(k, l));
    }
    forall k | 0 <= k < n
      ensures Product(A, i, MatMul(m, B, C), j)(k) == Sum(0, m, l => F(k, l))
    {
      SumScale(0, m, A(i, k), Product(B, k, C, j), l => F(k, l));
    }
    SumSwap(0, n, 0, m, F, Product(A, i, MatMul(m, B, C), j), Product(MatMul(n, A, B), i, C, j));
  }

  lemma MatVecAssoc(n: nat, m: nat, A: Matrix, B: Matrix, x: Vector, i: int)
    ensures MatVec(m, MatMul(n, A, B), x)(i) == MatVec(n, A, MatVec(m, B, x))(i)
  {
    var X: Matrix := (l, j) => x(l);
    MatMulAssoc(n, m, A, B, X, i, 0);
    SumCong(0, m, Product(MatMul(n, A, B), i, X, 0), Terms(MatMul(n, A, B), i, x));
    forall k | 0 <= k < n
      ensures Product(A, i, MatMul(m, B, X), 0)(k) == Terms(A, i, MatVec(m, B, x))(k)
    {
      SumCong(0, m, Product(B, k, X, 0), Terms(B, k, x));
    }
    SumCong(0, n, Product(A, i, MatMul(m, B, X), 0), Terms(A, i, MatVec(m, B, x)));
  }

  /** Row i of A and B, and column j of the right factors, need only agree below n. */
  lemma MatMulCong(n: nat, A: Matrix, A': Matrix, B: Matrix, B': Matrix, i: int, j: int)
    requires forall k :: 0 <= k < n ==> A(i, k) == A'(i, k) && B(k, j) == B'(k, j)
    ensures MatMul(n, A, B)(i, j) == MatMul(n, A', B')(i, j)
  {
    SumCong(0, n, Product(A, i, B, j), Product(A', i, B', j));
  }

  lemma MatMulTranspose(n: nat, A: Matrix, B: Matrix, i: int, j: int)
    ensures MatMul(n, A, B)(i, j) == MatMul(n, Transpose(B), Transpose(A))(j, i)
  {
    SumCong(0, n, Product(A, i, B, j), Product(Transpose(B), j, Transpose(A), i));
  }

  ghost function Identity(): Matrix {
    (i, j) => Delta(i, j)
  }

  lemma IdentityMatMul(n: nat, A: Matrix, i: int, j: int)
    requires 0 <= i < n
    ensures MatMul(n, Identity(), A)(i, j) == A(i, j)
  {
    var row := Product(Identity(), i, A, j);
    forall k | 0 <= k < n && k != i ensures row(k) == 0.0 {
      assert Identity()(i, k) == 0.0;
    }
    SumSingle(0, n, i, row);
  }

  lemma MatMulIdentity(n: nat, A: Matrix, i: int, j: int)
    requires 0 <= j < n
    ensures MatMul(n, A, Identity())(i, j) == A(i, j)
  {
    var row := Product(A, i, Identity(), j);
    forall k | 0 <= k < n && k != j ensures row(k) == 0.0 {
      assert Identity()(k, j) == 0.0;
    }
    SumSingle(0, n, j, row);
  }
}
