/** Block-diagonal matrices: their entries, products and inverses are those of their blocks. */
module DiagonalBlocks {
  import opened Sums
  import opened LinearAlgebra
  import opened BlockLayout
  import opened SparseBlocks
  import opened SchurComplement

  /** The matrix with the given blocks on its diagonal. */
  ghost function DiagonalEntry(ends: seq<nat>, blocks: seq<Matrix>, i: int, j: int): real {
    var b := BlockOf(ends, i);
    if 0 <= i && 0 <= j && b < |ends| && b < |blocks| && BlockOf(ends, j) == b
    then blocks[b](i - Base(ends, b), j - Base(ends, b))
    else 0.0
  }

  ghost function DiagonalDense(ends: seq<nat>, blocks: seq<Matrix>): Matrix {
    (i, j) => DiagonalEntry(ends, blocks, i, j)
  }

  lemma DiagonalInBlock(ends: seq<nat>, blocks: seq<Matrix>, b: nat, j: int, k: int)
    requires Monotone(ends) && |blocks| == |ends| && Within(ends, b, j) && 0 <= k < Size(ends)
    ensures DiagonalEntry(ends, blocks, k, j)
         == if Within(ends, b, k) then blocks[b](k - Base(ends, b), j - Base(ends, b)) else 0.0
  {
    BlockUnique(ends, b, j);
    BlockOfWithin(ends, k);
    if Within(ends, b, k) {
      BlockUnique(ends, b, k);
    }
  }

  lemma ZeroFactor(x: real, y: real)
    ensures y == 0.0 ==> x * y == 0.0
  {
  }

  lemma DiagonalTimesVector(ends: seq<nat>, blocks: seq<Matrix>, l: nat, t: int, x: Vector)
    requires Monotone(ends) && |blocks| == |ends| && l < |ends| && 0 <= t < Dim(ends, l)
    ensures MatVec(Size(ends), DiagonalDense(ends, blocks), x)(Base(ends, l) + t)
         == MatVec(Dim(ends, l), blocks[l], FromOffset(x, Base(ends, l)))(t)
  {
    var i := Base(ends, l) + t;
    var f, g := Terms(DiagonalDense(ends, blocks), i, x), Terms(blocks[l], t, FromOffset(x, Base(ends, l)));
    forall k | 0 <= k < Size(ends) && !Within(ends, l, k) ensures f(k) == 0.0 {
      DiagonalRow(ends, blocks, l, t, k);
      ZeroTimes(DiagonalDense(ends, blocks)(i, k), x(k));
    }
    forall s | 0 <= s < Dim(ends, l) ensures g(s) == f(Base(ends, l) + s) {
      BaseMonotone(ends, l, l + 1);
      BaseMonotone(ends, l + 1, |ends|);
      DiagonalRow(ends, blocks, l, t, Base(ends, l) + s);
    }
    SumOverBlock(ends, l, f, g);
  }

  lemma ZeroTimes(x: real, y: real)
    ensures x == 0.0 ==> x * y == 0.0
  {
  }

  lemma DiagonalRow(ends: seq<nat>, blocks: seq<Matrix>, l: nat, t: int, k: int)
    requires Monotone(ends) && |blocks| == |ends| && l < |ends| && 0 <= t < Dim(ends, l) && 0 <= k < Size(ends)
    ensures DiagonalDense(ends, blocks)(Base(ends, l) + t, k)
         == if Within(ends, l, k) then blocks[l](t, k - Base(ends, l)) else 0.0
  {
    BlockUnique(ends, l, Base(ends, l) + t);
    BlockOfWithin(ends, k);
    if Within(ends, l, k) {
      BlockUnique(ends, l, k);
    }
  }

  ghost function BlockProducts(ends: seq<nat>, A: seq<Matrix>, B: seq<Matrix>): (r: seq<Matrix>)
    requires |A| == |B| == |ends|
    ensures |r| == |ends| && forall l :: 0 <= l < |ends| ==> r[l] == MatMul(Dim(ends, l), A[l], B[l])
  {
    seq<Matrix>(|ends|, l requires 0 <= l < |ends| => MatMul(Dim(ends, l), A[l], B[l]))
  }

  /** The product of block-diagonal matrices is block by block. */
  lemma DiagonalProduct(ends: seq<nat>, A: seq<Matrix>, B: seq<Matrix>, i: int, j: int)
    requires Monotone(ends) && |A| == |B| == |ends| && 0 <= i < Size(ends) && 0 <= j < Size(ends)
    ensures MatMul(Size(ends), DiagonalDense(ends, A), DiagonalDense(ends, B))(i, j)
         == DiagonalDense(ends, BlockProducts(ends, A, B))(i, j)
  {
    hide *;
    var l := BlockOf(ends, i);
    BlockOfWithin(ends, i);
    var t := Inner(ends, l, i);
    var f, g := Product(DiagonalDense(ends, A), i, DiagonalDense(ends, B), j), InnerTerms(ends, A, B, l, t, j);
    forall k | 0 <= k < Size(ends) && !Within(ends, l, k) ensures f(k) == 0.0 {
      OffBlock(ends, A, B, l, t, j, k);
    }
    forall k | 0 <= k < Dim(ends, l) ensures g(k) == f(Base(ends, l) + k) {
      OnBlock(ends, A, B, l, t, j, k);
    }
    SumOverBlock(ends, l, f, g);
    InnerSum(ends, A, B, l, t, j);
    ProductIsSum(Size(ends), DiagonalDense(ends, A), DiagonalDense(ends, B), i, j);
  }

  lemma ProductIsSum(n: nat, A: Matrix, B: Matrix, i: int, j: int)
    ensures MatMul(n, A, B)(i, j) == Sum(0, n, Product(A, i, B, j))
  {
  }

  /** The position of i within its block. */
  lemma Inner(ends: seq<nat>, l: nat, i: int) returns (t: int)
    requires Within(ends, l, i)
    ensures l < |ends| && 0 <= t < Dim(ends, l) && i == Base(ends, l) + t
  {
    t := i - Base(ends, l);
  }

  ghost function InnerTerms(ends: seq<nat>, A: seq<Matrix>, B: seq<Matrix>, l: nat, t: int, j: int): Vector
    requires |A| == |B| == |ends| && l < |ends|
  {
    if Within(ends, l, j) then Product(A[l], t, B[l], j - Base(ends, l)) else k => 0.0
  }

  lemma OffBlock(ends: seq<nat>, A: seq<Matrix>, B: seq<Matrix>, l: nat, t: int, j: int, k: int)
    requires Monotone(ends) && |A| == |B| == |ends| && l < |ends| && 0 <= t < Dim(ends, l)
    requires 0 <= k < Size(ends) && !Within(ends, l, k)
    ensures Product(DiagonalDense(ends, A), Base(ends, l) + t, DiagonalDense(ends, B), j)(k) == 0.0
  {
    hide Within, DiagonalEntry, Base, Dim;
    DiagonalRow(ends, A, l, t, k);
    ZeroTimes(DiagonalDense(ends, A)(Base(ends, l) + t, k), DiagonalDense(ends, B)(k, j));
  }

  lemma OnBlock(ends: seq<nat>, A: seq<Matrix>, B: seq<Matrix>, l: nat, t: int, j: int, k: int)
    requires Monotone(ends) && |A| == |B| == |ends| && l < |ends| && 0 <= t < Dim(ends, l)
    requires 0 <= k < Dim(ends, l) && 0 <= j < Size(ends)
    ensures Product(DiagonalDense(ends, A), Base(ends, l) + t, DiagonalDense(ends, B), j)(Base(ends, l) + k)
         == InnerTerms(ends, A, B, l, t, j)(k)
  {
    var p := Base(ends, l) + k;
    BaseMonotone(ends, l, l + 1);
    BaseMonotone(ends, l + 1, |ends|);
    hide DiagonalEntry;
    DiagonalRow(ends, A, l, t, p);
    DiagonalRow(ends, B, l, k, j);
    ZeroFactor(DiagonalDense(ends, A)(Base(ends, l) + t, p), DiagonalDense(ends, B)(p, j));
  }

  lemma InnerSum(ends: seq<nat>, A: seq<Matrix>, B: seq<Matrix>, l: nat, t: int, j: int)
    requires Monotone(ends) && |A| == |B| == |ends| && l < |ends| && 0 <= t < Dim(ends, l) && 0 <= j < Size(ends)
    ensures Sum(0, Dim(ends, l), InnerTerms(ends, A, B, l, t, j))
         == DiagonalDense(ends, BlockProducts(ends, A, B))(Base(ends, l) + t, j)
  {
    hide DiagonalEntry;
    DiagonalRow(ends, BlockProducts(ends, A, B), l, t, j);
    if !Within(ends, l, j) {
      SumZero(0, Dim(ends, l), InnerTerms(ends, A, B, l, t, j));
    }
  }

  lemma DiagonalInverse(ends: seq<nat>, A: seq<Matrix>, B: seq<Matrix>)
    requires Monotone(ends) && |A| == |B| == |ends|
    requires forall l :: 0 <= l < |ends| ==> RightInverse(Dim(ends, l), A[l], B[l])
    ensures RightInverse(Size(ends), DiagonalDense(ends, A), DiagonalDense(ends, B))
  {
    hide DiagonalDense, MatMul;
    forall i, j | 0 <= i < Size(ends) && 0 <= j < Size(ends)
      ensures MatMul(Size(ends), DiagonalDense(ends, A), DiagonalDense(ends, B))(i, j) == Delta(i, j)
    {
      DiagonalProduct(ends, A, B, i, j);
      IdentityBlocks(ends, A, B, i, j);
    }
  }

  lemma IdentityBlocks(ends: seq<nat>, A: seq<Matrix>, B: seq<Matrix>, i: int, j: int)
    requires Monotone(ends) && |A| == |B| == |ends| && 0 <= i < Size(ends) && 0 <= j < Size(ends)
    requires forall l :: 0 <= l < |ends| ==> RightInverse(Dim(ends, l), A[l], B[l])
    ensures DiagonalDense(ends, BlockProducts(ends, A, B))(i, j) == Delta(i, j)
  {
    hide MatMul;
    var l := BlockOf(ends, i);
    BlockOfWithin(ends, i);
    var t := Inner(ends, l, i);
    DiagonalRow(ends, BlockProducts(ends, A, B), l, t, j);
    if Within(ends, l, j) {
      var s := Inner(ends, l, j);
      assert MatMul(Dim(ends, l), A[l], B[l])(t, s) == Delta(t, s);
    }
  }

  lemma DiagonalSymmetric(ends: seq<nat>, blocks: seq<Matrix>)
    requires Monotone(ends) && |blocks| == |ends|
    requires forall l :: 0 <= l < |ends| ==> SymmetricMatrix(Dim(ends, l), blocks[l])
    ensures SymmetricMatrix(Size(ends), DiagonalDense(ends, blocks))
  {
    forall i, j | 0 <= i < Size(ends) && 0 <= j < Size(ends)
      ensures DiagonalDense(ends, blocks)(i, j) == DiagonalDense(ends, blocks)(j, i)
    {
      var l := BlockOf(ends, i);
      BlockOfWithin(ends, i);
      BlockOfWithin(ends, j);
      if BlockOf(ends, j) == l {
        assert blocks[l](i - Base(ends, l), j - Base(ends, l)) == blocks[l](j - Base(ends, l), i - Base(ends, l));
      }
    }
  }

  /** dest += A x for the block-diagonal A, block by block; dest starts at an offset into a longer array. */
  method Multiply(ends: seq<nat>, blocks: seq<Matrix>, src: Vector, dest: array<real>, offset: nat)
    requires Monotone(ends) && |blocks| == |ends| && offset + Size(ends) <= dest.Length
    modifies dest
    ensures forall p :: 0 <= p < dest.Length && !(offset <= p < offset + Size(ends)) ==> dest[p] == old(dest[p])
    ensures forall k :: 0 <= k < Size(ends) ==>
      dest[offset + k] == old(dest[offset + k]) + MatVec(Size(ends), DiagonalDense(ends, blocks), src)(k)
  {
    assert Base(ends, 0) == 0;
    for l := 0 to |ends|
      invariant forall p :: 0 <= p < dest.Length ==>
        dest[p] == old(dest[p]) + if offset <= p < offset + Base(ends, l) then MatVec(Size(ends), DiagonalDense(ends, blocks), src)(p - offset) else 0.0
    {
      hide DiagonalDense, MatVec;
      BaseMonotone(ends, l, l + 1);
      BaseMonotone(ends, l + 1, |ends|);
      forall t | 0 <= t < Dim(ends, l)
        ensures MatVec(Size(ends), DiagonalDense(ends, blocks), src)(Base(ends, l) + t)
             == MatVec(Dim(ends, l), blocks[l], FromOffset(src, Base(ends, l)))(t)
      {
        DiagonalTimesVector(ends, blocks, l, t, src);
      }
      Axpy(blocks[l], Dim(ends, l), Dim(ends, l), src, Base(ends, l), dest, offset + Base(ends, l));
    }
  }
}
