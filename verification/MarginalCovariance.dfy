/**
 Marginal covariances from a sparse Cholesky factor: selected entries of the inverse of L * L^T
 by a memoised recursion over the columns of L.
 */
module MarginalCovariance {
  import opened Sums
  import opened LinearAlgebra
  import opened BlockLayout
  import opened SchurComplement
  import opened TriangularInverse

  /** Column-compressed storage of an n x n matrix. */
  datatype Factor = Factor(n: nat, Ap: seq<int>, Ai: seq<int>, Ax: seq<real>)

  ghost predicate ValidColumn(f: Factor, r: int)
    requires |f.Ap| == f.n + 1 && |f.Ai| == |f.Ax| && 0 <= r < f.n
  {
    && 0 <= f.Ap[r] < f.Ap[r + 1] <= |f.Ai|
    && f.Ai[f.Ap[r]] == r
    && f.Ax[f.Ap[r]] != 0.0
    && forall j :: f.Ap[r] < j < f.Ap[r + 1] ==> r < f.Ai[j] < f.n
  }

  /** Lower triangular, each column starting with its non-zero diagonal entry. */
  ghost predicate ValidFactor(f: Factor)
  {
    && |f.Ap| == f.n + 1
    && |f.Ai| == |f.Ax|
    && forall r :: 0 <= r < f.n ==> ValidColumn(f, r)
  }

  ghost function DiagonalOf(f: Factor, r: int): (a: real)
    requires ValidFactor(f) && 0 <= r < f.n
    ensures a != 0.0
  {
    assert ValidColumn(f, r);
    f.Ax[f.Ap[r]]
  }

  // ----- The recursion without its memory

  ghost function Entry(f: Factor, r: int, c: int): real
    requires ValidFactor(f) && 0 <= r <= c < f.n
    decreases 2 * f.n - r - c, 1, 0
  {
    assert ValidColumn(f, r);
    EntryFrom(r == c, 1.0 / DiagonalOf(f, r), ColumnSum(f, r, c, f.Ap[r + 1]))
  }

  ghost function EntryFrom(onDiagonal: bool, d: real, s: real): real {
    if onDiagonal then d * (d - s) else -s * d
  }

  /** Off-diagonal part of column r up to storage position hi, times column c of the result. */
  ghost function ColumnSum(f: Factor, r: int, c: int, hi: int): real
    requires ValidFactor(f) && 0 <= r <= c < f.n && f.Ap[r] < hi <= f.Ap[r + 1]
    decreases 2 * f.n - r - c, 0, hi
  {
    assert ValidColumn(f, r);
    if hi == f.Ap[r] + 1 then 0.0
    else ColumnSum(f, r, c, hi - 1) + CovAt(f, f.Ai[hi - 1], c) * f.Ax[hi - 1]
  }

  /** The symmetric matrix whose upper triangle holds the entries. */
  ghost function CovAt(f: Factor, i: int, j: int): real
    requires ValidFactor(f) && 0 <= i < f.n && 0 <= j < f.n
    decreases 2 * f.n - i - j, 2, 0
  {
    if i < j then Entry(f, i, j) else Entry(f, j, i)
  }

  // ----- The dense matrices that the storage and the recursion denote

  /** Storage position k contributes its value times the vector's entry for its row. */
  ghost function Gather(Ai: seq<int>, Ax: seq<real>, x: Vector): Vector
  {
    k => if 0 <= k < |Ai| && k < |Ax| then x(Ai[k]) * Ax[k] else 0.0
  }

  /** Position k if it belongs to row i. */
  ghost function Cell(Ai: seq<int>, Ax: seq<real>, i: int): Vector {
    k => if 0 <= k < |Ai| && k < |Ax| && Ai[k] == i then Ax[k] else 0.0
  }

  /** The dense column that positions lo..hi denote. */
  ghost function Scatter(Ai: seq<int>, Ax: seq<real>, lo: int, hi: int): Vector {
    i => Sum(lo, hi, Cell(Ai, Ax, i))
  }

  ghost function Times(a: Vector, x: Vector): Vector {
    i => x(i) * a(i)
  }

  lemma ScatterStep(Ai: seq<int>, Ax: seq<real>, lo: int, hi: int, x: Vector, i: int)
    requires 0 <= lo < hi <= |Ai| == |Ax|
    ensures Times(Scatter(Ai, Ax, lo, hi), x)(i)
         == Times(Scatter(Ai, Ax, lo, hi - 1), x)(i) + (if i == Ai[hi - 1] then x(i) * Ax[hi - 1] else 0.0)
  {
    var a, b := Scatter(Ai, Ax, lo, hi - 1)(i), Scatter(Ai, Ax, lo, hi)(i);
    var d := Cell(Ai, Ax, i)(hi - 1);
    assert b == a + d;
    assert x(i) * b == x(i) * a + x(i) * d;
  }

  lemma ColumnDotStep(n: nat, Ai: seq<int>, Ax: seq<real>, x: Vector, lo: int, hi: int)
    requires 0 <= lo < hi <= |Ai| == |Ax|
    requires 0 <= Ai[hi - 1] < n
    ensures Sum(0, n, Times(Scatter(Ai, Ax, lo, hi), x))
         == Sum(0, n, Times(Scatter(Ai, Ax, lo, hi - 1), x)) + x(Ai[hi - 1]) * Ax[hi - 1]
  {
    var before, now := Times(Scatter(Ai, Ax, lo, hi - 1), x), Times(Scatter(Ai, Ax, lo, hi), x);
    var last: Vector := i => if i == Ai[hi - 1] then x(i) * Ax[hi - 1] else 0.0;
    forall i ensures now(i) == before(i) + last(i) {
      ScatterStep(Ai, Ax, lo, hi, x, i);
    }
    SumPeel(n, before, last, now, Ai[hi - 1]);
  }

  /** The dense form of storage positions lo..hi times a vector, read off the storage. */
  lemma {:induction false} ColumnDot(n: nat, Ai: seq<int>, Ax: seq<real>, x: Vector, lo: int, hi: int)
    requires 0 <= lo <= hi <= |Ai| == |Ax|
    requires forall j :: lo <= j < hi ==> 0 <= Ai[j] < n
    ensures Sum(0, n, Times(Scatter(Ai, Ax, lo, hi), x)) == Sum(lo, hi, Gather(Ai, Ax, x))
    decreases hi
  {
    if hi == lo {
      forall i ensures Times(Scatter(Ai, Ax, lo, hi), x)(i) == 0.0 {
        assert Scatter(Ai, Ax, lo, hi)(i) == 0.0;
      }
      SumZero(0, n, Times(Scatter(Ai, Ax, lo, hi), x));
    } else {
      ColumnDot(n, Ai, Ax, x, lo, hi - 1);
      ColumnDotStep(n, Ai, Ax, x, lo, hi);
    }
  }

  ghost function LAt(f: Factor, i: int, j: int): real {
    if 0 <= j && j + 1 < |f.Ap| then Scatter(f.Ai, f.Ax, f.Ap[j], f.Ap[j + 1])(i) else 0.0
  }

  ghost function L(f: Factor): Matrix {
    (i, j) => LAt(f, i, j)
  }

  ghost function CovEntry(f: Factor, i: int, j: int): real {
    if ValidFactor(f) && 0 <= i < f.n && 0 <= j < f.n then CovAt(f, i, j) else 0.0
  }

  ghost function Cov(f: Factor): Matrix {
    (i, j) => CovEntry(f, i, j)
  }

  lemma StorageIsLowerTriangular(f: Factor)
    requires ValidFactor(f)
    ensures LowerTriangular(f.n, L(f))
    ensures forall j :: 0 <= j < f.n ==> L(f)(j, j) == DiagonalOf(f, j)
  {
    forall i, j | 0 <= i <= j < f.n
      ensures L(f)(i, j) == if i == j then DiagonalOf(f, j) else 0.0
    {
      assert ValidColumn(f, j);
      if i < j {
        SumZero(f.Ap[j], f.Ap[j + 1], Cell(f.Ai, f.Ax, i));
      } else {
        SumSingle(f.Ap[j], f.Ap[j + 1], f.Ap[j], Cell(f.Ai, f.Ax, i));
      }
    }
  }

  /** Row r of L^T times column c of any matrix, read off the storage. */
  lemma ColumnProduct(f: Factor, r: int, S: Matrix, c: int, x: Vector)
    requires ValidFactor(f) && 0 <= r < f.n
    requires forall i :: x(i) == S(i, c)
    ensures ValidColumn(f, r)
    ensures MatMul(f.n, Transpose(L(f)), S)(r, c) == Sum(f.Ap[r], f.Ap[r + 1], Gather(f.Ai, f.Ax, x))
  {
    assert ValidColumn(f, r);
    var a := Scatter(f.Ai, f.Ax, f.Ap[r], f.Ap[r + 1]);
    calc {
      MatMul(f.n, Transpose(L(f)), S)(r, c);
      { ProductAsTimes(f.n, L(f), r, S, c, a, x); }
      Sum(0, f.n, Times(a, x));
      { ColumnDot(f.n, f.Ai, f.Ax, x, f.Ap[r], f.Ap[r + 1]); }
      Sum(f.Ap[r], f.Ap[r + 1], Gather(f.Ai, f.Ax, x));
    }
  }

  lemma ProductAsTimes(n: nat, A: Matrix, r: int, S: Matrix, c: int, a: Vector, x: Vector)
    requires forall i :: x(i) == S(i, c) && a(i) == A(i, r)
    ensures MatMul(n, Transpose(A), S)(r, c) == Sum(0, n, Times(a, x))
  {
    SumCong(0, n, Product(Transpose(A), r, S, c), Times(a, x));
  }

  ghost predicate RunningStep(Ai: seq<int>, Ax: seq<real>, x: Vector, running: Vector, h: int)
    requires 0 < h <= |Ai| == |Ax|
  {
    running(h) == running(h - 1) + x(Ai[h - 1]) * Ax[h - 1]
  }

  /** A running sum that skips the first position of a column misses exactly that position's term. */
  lemma {:induction false} SkipFirst(Ai: seq<int>, Ax: seq<real>, x: Vector, lo: int, hi: int, running: Vector)
    requires 0 <= lo < hi <= |Ai| == |Ax|
    requires running(lo + 1) == 0.0
    requires forall h :: lo + 1 < h <= hi ==> RunningStep(Ai, Ax, x, running, h)
    ensures Sum(lo, hi, Gather(Ai, Ax, x)) == x(Ai[lo]) * Ax[lo] + running(hi)
    decreases hi
  {
    assert Gather(Ai, Ax, x)(hi - 1) == x(Ai[hi - 1]) * Ax[hi - 1];
    if lo + 1 < hi {
      SkipFirst(Ai, Ax, x, lo, hi - 1, running);
      assert RunningStep(Ai, Ax, x, running, hi);
    } else {
      assert Sum(lo, lo, Gather(Ai, Ax, x)) == 0.0;
    }
  }

  ghost function Column(S: Matrix, c: int): Vector {
    i => S(i, c)
  }

  /** The running sums of one entry: empty at first, then one stored value of column r at a time. */
  ghost predicate RunningSums(f: Factor, r: int, c: int, S: Matrix, running: Vector)
    requires ValidFactor(f) && 0 <= r <= c < f.n && ValidColumn(f, r)
  {
    && running(f.Ap[r] + 1) == 0.0
    && (forall h :: f.Ap[r] + 1 < h <= f.Ap[r + 1] ==> RunningStep(f.Ai, f.Ax, Column(S, c), running, h))
    && Closes(f, r, c, running(f.Ap[r + 1]), S(r, c))
  }

  /** x is the entry that the complete column sum s gives. */
  ghost predicate Closes(f: Factor, r: int, c: int, s: real, x: real)
    requires ValidFactor(f) && 0 <= r <= c < f.n
  {
    x == EntryFrom(r == c, 1.0 / DiagonalOf(f, r), s)
  }

  lemma EntryCloses(f: Factor, r: int, c: int)
    requires ValidFactor(f) && 0 <= r <= c < f.n && ValidColumn(f, r)
    ensures Closes(f, r, c, ColumnSum(f, r, c, f.Ap[r + 1]), CovEntry(f, r, c))
  {
    assert CovAt(f, r, c) == Entry(f, r, c);
  }

  /** S satisfies the recursion's equations in its upper triangle and is symmetric. */
  ghost predicate SolvesRecursion(f: Factor, S: Matrix)
    requires ValidFactor(f)
  {
    && SymmetricMatrix(f.n, S)
    && forall r, c :: 0 <= r <= c < f.n ==> HasRunningSums(f, r, c, S)
  }

  ghost predicate HasRunningSums(f: Factor, r: int, c: int, S: Matrix)
    requires ValidFactor(f) && 0 <= r <= c < f.n
  {
    ValidColumn(f, r) && exists running :: RunningSums(f, r, c, S, running)
  }

  ghost function Running(f: Factor, r: int, c: int): Vector
    requires ValidFactor(f) && 0 <= r <= c < f.n && ValidColumn(f, r)
  {
    h => if f.Ap[r] < h <= f.Ap[r + 1] then ColumnSum(f, r, c, h) else 0.0
  }

  lemma CovRunningStep(f: Factor, r: int, c: int, h: int)
    requires ValidFactor(f) && 0 <= r <= c < f.n && ValidColumn(f, r) && f.Ap[r] + 1 < h <= f.Ap[r + 1]
    ensures RunningStep(f.Ai, f.Ax, Column(Cov(f), c), Running(f, r, c), h)
  {
    var i := f.Ai[h - 1];
    assert Column(Cov(f), c)(i) == CovAt(f, i, c);
    assert Running(f, r, c)(h) == ColumnSum(f, r, c, h) && Running(f, r, c)(h - 1) == ColumnSum(f, r, c, h - 1);
  }

  lemma CovRunningSums(f: Factor, r: int, c: int)
    requires ValidFactor(f) && 0 <= r <= c < f.n
    ensures HasRunningSums(f, r, c, Cov(f))
  {
    hide ValidFactor, RunningStep, ColumnSum, CovAt;
    assert ValidColumn(f, r) by {
      ColumnIsValid(f, r);
    }
    forall h | f.Ap[r] + 1 < h <= f.Ap[r + 1] ensures RunningStep(f.Ai, f.Ax, Column(Cov(f), c), Running(f, r, c), h) {
      CovRunningStep(f, r, c, h);
    }
    RunningStarts(f, r, c);
    EntryCloses(f, r, c);
    assert RunningSums(f, r, c, Cov(f), Running(f, r, c));
  }

  lemma RunningStarts(f: Factor, r: int, c: int)
    requires ValidFactor(f) && 0 <= r <= c < f.n && ValidColumn(f, r)
    ensures Running(f, r, c)(f.Ap[r] + 1) == 0.0
  {
  }

  lemma ColumnIsValid(f: Factor, r: int)
    requires ValidFactor(f) && 0 <= r < f.n
    ensures |f.Ap| == f.n + 1 && |f.Ai| == |f.Ax| && ValidColumn(f, r)
  {
  }

  lemma CovSolvesRecursion(f: Factor)
    requires ValidFactor(f)
    ensures SolvesRecursion(f, Cov(f))
  {
    forall r, c | 0 <= r <= c < f.n
      ensures HasRunningSums(f, r, c, Cov(f))
    {
      CovRunningSums(f, r, c);
    }
  }

  lemma SolveDiagonal(onDiagonal: bool, a: real, d: real, s: real, x: real)
    requires a != 0.0 && d == 1.0 / a && x == EntryFrom(onDiagonal, d, s)
    ensures a * (x * a + s) == if onDiagonal then 1.0 else 0.0
  {
    assert a * d == 1.0;
    if onDiagonal {
      assert x * a == (a * d) * (d - s);
    } else {
      assert x * a == -s * (a * d);
    }
  }

  /** Row r of L^T times column c of S, on and above the diagonal. */
  lemma UpperRow(f: Factor, r: int, c: int, S: Matrix, running: Vector)
    requires ValidFactor(f) && 0 <= r <= c < f.n && ValidColumn(f, r) && RunningSums(f, r, c, S, running)
    ensures DiagonalOf(f, r) * MatMul(f.n, Transpose(L(f)), S)(r, c) == Delta(r, c)
  {
    var x := Column(S, c);
    var a, s := DiagonalOf(f, r), running(f.Ap[r + 1]);
    assert MatMul(f.n, Transpose(L(f)), S)(r, c) == x(r) * a + s by {
      ColumnProduct(f, r, S, c, x);
      SkipFirst(f.Ai, f.Ax, x, f.Ap[r], f.Ap[r + 1], running);
    }
    SolveDiagonal(r == c, a, 1.0 / a, s, x(r));
  }

  lemma RecursionSolvesUpperRows(f: Factor, S: Matrix)
    requires ValidFactor(f) && SolvesRecursion(f, S)
    ensures UpperRows(f.n, L(f), S)
  {
    StorageIsLowerTriangular(f);
    forall r, c | 0 <= r <= c < f.n
      ensures L(f)(r, r) * MatMul(f.n, Transpose(L(f)), S)(r, c) == Delta(r, c)
    {
      SolvedEntry(f, r, c, S);
    }
  }

  lemma SolvedEntry(f: Factor, r: int, c: int, S: Matrix)
    requires ValidFactor(f) && 0 <= r <= c < f.n && HasRunningSums(f, r, c, S)
    ensures DiagonalOf(f, r) * MatMul(f.n, Transpose(L(f)), S)(r, c) == Delta(r, c)
  {
    var running :| RunningSums(f, r, c, S, running);
    UpperRow(f, r, c, S, running);
  }

  /** Main theorem: the recursion computes the two-sided inverse of L * L^T. */
  lemma CovIsInverse(f: Factor, i: int, j: int)
    requires ValidFactor(f) && 0 <= i < f.n && 0 <= j < f.n
    ensures MatMul(f.n, Cov(f), Gram(f.n, L(f)))(i, j) == Delta(i, j)
    ensures MatMul(f.n, Gram(f.n, L(f)), Cov(f))(i, j) == Delta(i, j)
  {
    StorageIsLowerTriangular(f);
    CovSolvesRecursion(f);
    RecursionSolvesUpperRows(f, Cov(f));
    TwoSidedInverse(f.n, L(f), Cov(f), i, j);
  }

  ghost function PermutedAt(A: Matrix, perm: seq<int>, i: int, j: int): real {
    if 0 <= i < |perm| && 0 <= j < |perm| then A(perm[i], perm[j]) else 0.0
  }

  ghost function Permuted(A: Matrix, perm: seq<int>): Matrix {
    (i, j) => PermutedAt(A, perm, i, j)
  }

  /**
   If the factor belongs to a matrix H whose rows and columns were reordered by perm, then the
   entries read through perm are the inverse of H itself.
   */
  lemma PermutedCovIsInverse(f: Factor, perm: seq<int>, H: Matrix, i: int, j: int)
    requires ValidFactor(f) && IsPermutation(perm, f.n) && 0 <= i < f.n && 0 <= j < f.n
    requires forall k, l :: 0 <= k < f.n && 0 <= l < f.n ==> H(k, l) == Gram(f.n, L(f))(perm[k], perm[l])
    ensures MatMul(f.n, H, Permuted(Cov(f), perm))(i, j) == Delta(i, j)
    ensures MatMul(f.n, Permuted(Cov(f), perm), H)(i, j) == Delta(i, j)
  {
    PermutedProduct(f.n, Gram(f.n, L(f)), Cov(f), perm, H, Permuted(Cov(f), perm), i, j);
    PermutedProduct(f.n, Cov(f), Gram(f.n, L(f)), perm, Permuted(Cov(f), perm), H, i, j);
    CovIsInverse(f, perm[i], perm[j]);
  }

  lemma PermutedProduct(n: nat, A: Matrix, B: Matrix, perm: seq<int>, A': Matrix, B': Matrix, i: int, j: int)
    requires IsPermutation(perm, n) && 0 <= i < n && 0 <= j < n
    requires forall k, l :: 0 <= k < n && 0 <= l < n ==> A'(k, l) == A(perm[k], perm[l]) && B'(k, l) == B(perm[k], perm[l])
    ensures MatMul(n, A', B')(i, j) == MatMul(n, A, B)(perm[i], perm[j])
    ensures Delta(i, j) == Delta(perm[i], perm[j])
  {
    SumPermutation(perm, n, Product(A, perm[i], B, perm[j]), Product(A', i, B', j));
  }

  /** Reordering applied before the factorisation; the factor may have been computed without one. */
  datatype Reordering = Unordered | PermInv(perm: seq<int>)

  ghost predicate ValidOrder(order: Reordering, n: nat) {
    order.PermInv? ==> IsPermutation(order.perm, n)
  }

  /** f factors the matrix H, after its rows and columns were reordered. */
  ghost predicate IsFactorOf(f: Factor, order: Reordering, H: Matrix) {
    var G := Gram(f.n, L(f));
    forall k, l :: 0 <= k < f.n && 0 <= l < f.n ==>
      H(k, l) == match order case Unordered => G(k, l) case PermInv(perm) => PermutedAt(G, perm, k, l)
  }

  /** The inverse of L * L^T in the order of the original matrix. */
  ghost function Covariance(f: Factor, order: Reordering): Matrix {
    match order
    case Unordered => Cov(f)
    case PermInv(perm) => Permuted(Cov(f), perm)
  }

  lemma CovarianceInverts(f: Factor, order: Reordering, H: Matrix, i: int, j: int)
    requires ValidFactor(f) && ValidOrder(order, f.n) && IsFactorOf(f, order, H) && 0 <= i < f.n && 0 <= j < f.n
    ensures MatMul(f.n, H, Covariance(f, order))(i, j) == Delta(i, j)
    ensures MatMul(f.n, Covariance(f, order), H)(i, j) == Delta(i, j)
  {
    match order {
      case Unordered =>
        CovIsInverse(f, i, j);
        MatMulCong(f.n, H, Gram(f.n, L(f)), Cov(f), Cov(f), i, j);
        MatMulCong(f.n, Cov(f), Cov(f), H, Gram(f.n, L(f)), i, j);
      case PermInv(perm) =>
        PermutedCovIsInverse(f, perm, H, i, j);
    }
  }

  /** Whatever inverts the matrix that was factored is its covariance. */
  lemma CovarianceIsTheInverse(f: Factor, order: Reordering, H: Matrix, X: Matrix, i: int, j: int)
    requires ValidFactor(f) && ValidOrder(order, f.n) && IsFactorOf(f, order, H) && RightInverse(f.n, H, X)
    requires 0 <= i < f.n && 0 <= j < f.n
    ensures Covariance(f, order)(i, j) == X(i, j)
  {
    var n, C := f.n, Covariance(f, order);
    hide Covariance, IsFactorOf, ValidOrder, ValidFactor;
    forall k | 0 <= k < n ensures MatMul(n, C, H)(i, k) == Delta(i, k) {
      CovarianceInverts(f, order, H, i, k);
    }
    TimesIdentity(n, C, MatMul(n, H, X), i, j);
    MatMulAssoc(n, n, C, H, X, i, j);
    IdentityTimes(n, MatMul(n, C, H), X, i, j);
  }

  // ----- The memoised computation

  datatype MatrixElem = MatrixElem(r: int, c: int)

  /** Where position k of the original matrix is in the factor. */
  function PlaceIn(order: Reordering, k: int): int {
    match order
    case Unordered => k
    case PermInv(perm) => if 0 <= k < |perm| then perm[k] else 0
  }

  function Upper(r: int, c: int): MatrixElem {
    if r > c then MatrixElem(c, r) else MatrixElem(r, c)
  }

  /** The key of entry (r, c) in the lookup table, and its position in a row-major block. */
  function Index(n: int, r: int, c: int): int {
    r * n + c
  }

  lemma AtLeastOnce(d: int, n: int)
    requires d >= 1 && n >= 0
    ensures d * n >= n
  {
  }

  lemma IndexInjective(n: int, r: int, c: int, r': int, c': int)
    requires 0 <= c < n && 0 <= c' < n && Index(n, r, c) == Index(n, r', c')
    ensures r == r' && c == c'
  {
    assert (r - r') * n == c' - c;
    if r > r' {
      AtLeastOnce(r - r', n);
    } else if r < r' {
      assert (r' - r) * n == c - c';
      AtLeastOnce(r' - r, n);
    }
  }

  lemma OnlyAt(n: int, r: int, c: int)
    requires 0 <= c < n
    ensures forall r', c' :: 0 <= c' < n && Index(n, r', c') == Index(n, r, c) ==> r' == r && c' == c
  {
    forall r', c' | 0 <= c' < n && Index(n, r', c') == Index(n, r, c)
      ensures r' == r && c' == c
    {
      IndexInjective(n, r', c', r, c);
    }
  }

  lemma IndexInRange(n: int, r: int, c: int)
    requires 0 <= r < n && 0 <= c < n
    ensures 0 <= Index(n, r, c) < n * n
  {
    AtLeastOnce(n - r, n);
    assert (n - r) * n == n * n - r * n;
  }

  method WriteMirrored(cov: array<real>, vdim: int, rr: int, cc: int, x: real)
    requires 0 <= rr < vdim && 0 <= cc < vdim
    requires forall a, b :: 0 <= a < vdim && 0 <= b < vdim ==> 0 <= Index(vdim, a, b) < cov.Length
    modifies cov
    ensures forall a, b :: 0 <= a < vdim && 0 <= b < vdim ==>
              cov[Index(vdim, a, b)] == if (a == rr && b == cc) || (a == cc && b == rr) then x else old(cov[Index(vdim, a, b)])
  {
    OnlyAt(vdim, rr, cc);
    OnlyAt(vdim, cc, rr);
    cov[Index(vdim, rr, cc)] := x;
    if rr != cc {
      cov[Index(vdim, cc, rr)] := x;
    }
  }

  /** Every stored value is the entry its key stands for. */
  ghost predicate Agrees(f: Factor, lookup: map<int, real>)
    requires ValidFactor(f)
  {
    forall r, c :: 0 <= r <= c < f.n && Index(f.n, r, c) in lookup ==> lookup[Index(f.n, r, c)] == Entry(f, r, c)
  }

  lemma AgreesAfterInsert(f: Factor, lookup: map<int, real>, r: int, c: int, x: real)
    requires ValidFactor(f) && Agrees(f, lookup) && 0 <= r <= c < f.n && x == Entry(f, r, c)
    ensures Agrees(f, lookup[Index(f.n, r, c) := x])
  {
    OnlyAt(f.n, r, c);
  }

  lemma ColumnSumStep(f: Factor, r: int, c: int, j: int, val: real)
    requires ValidFactor(f) && 0 <= r <= c < f.n && f.Ap[r] < j < f.Ap[r + 1]
    requires ValidColumn(f, r)
    requires val == if f.Ai[j] < c then Entry(f, f.Ai[j], c) else Entry(f, c, f.Ai[j])
    ensures ColumnSum(f, r, c, j + 1) == ColumnSum(f, r, c, j) + val * f.Ax[j]
  {
  }

  ghost predicate Reciprocal(f: Factor, r: int, d: real)
    requires ValidFactor(f) && 0 <= r < f.n
  {
    d == 1.0 / DiagonalOf(f, r)
  }

  lemma EntryUnfolds(f: Factor, r: int, c: int, d: real, s: real, x: real)
    requires ValidFactor(f) && 0 <= r <= c < f.n && ValidColumn(f, r)
    requires Reciprocal(f, r, d) && s == ColumnSum(f, r, c, f.Ap[r + 1])
    requires x == if r == c then d * (d - s) else -s * d
    ensures x == Entry(f, r, c)
  {
  }

  class MarginalCovarianceCholesky {
    var factor: Factor
    var order: Reordering
    var lookup: map<int, real>
    var diag: seq<real>

    /** The factor, the permutation and the reciprocals fit together, whatever the lookup table holds. */
    ghost predicate HasFactor()
      reads this`factor, this`order, this`diag
    {
      && ValidFactor(factor)
      && ValidOrder(order, factor.n)
      && |diag| == factor.n
      && (forall r :: 0 <= r < factor.n ==> Reciprocal(factor, r, diag[r]))
    }

    ghost predicate Valid()
      reads this
    {
      HasFactor() && Agrees(factor, lookup)
    }

    constructor ()
      ensures Valid() && factor.n == 0 && order == Unordered
    {
      factor, order, lookup, diag := Factor(0, [0], [], []), Unordered, map[], [];
    }

    function Place(k: int): (p: int)
      reads this
      ensures Valid() && 0 <= k < factor.n ==> 0 <= p < factor.n
    {
      PlaceIn(order, k)
    }

    /** Takes over a new factor. The lookup table keeps the entries of the old one until it is cleared. */
    method SetCholeskyFactor(f: Factor, permInv: Reordering)
      requires ValidFactor(f)
      requires ValidOrder(permInv, f.n)
      modifies this`factor, this`order, this`diag
      ensures HasFactor() && factor == f && order == permInv
      ensures Valid() <==> Agrees(f, lookup)
    {
      factor, order, diag := f, permInv, [];
      var r := 0;
      while r < f.n
        invariant 0 <= r <= f.n && |diag| == r
        invariant factor == f && order == permInv
        invariant forall k :: 0 <= k < r ==> Reciprocal(f, k, diag[k])
      {
        assert ValidColumn(f, r);
        diag := diag + [1.0 / f.Ax[f.Ap[r]]];
        r := r + 1;
      }
    }

    /** Computes one entry, filling the lookup table with everything the recursion passes through. */
    method ComputeEntry(r: int, c: int) returns (result: real)
      requires Valid() && 0 <= r <= c < factor.n
      modifies this`lookup
      ensures Valid()
      ensures result == Entry(factor, r, c)
      ensures old(lookup.Keys) + {Index(factor.n, r, c)} <= lookup.Keys
      decreases 2 * factor.n - r - c
    {
      var f := factor;
      var idx := Index(f.n, r, c);
      if idx in lookup {
        return lookup[idx];
      }
      assert ValidColumn(f, r);
      var s := 0.0;
      var j := f.Ap[r] + 1;
      while j < f.Ap[r + 1]
        invariant f.Ap[r] < j <= f.Ap[r + 1]
        invariant Valid() && old(lookup.Keys) <= lookup.Keys
        invariant s == ColumnSum(f, r, c, j)
      {
        var rr := f.Ai[j];
        var val;
        if rr < c {
          val := ComputeEntry(rr, c);
        } else {
          val := ComputeEntry(c, rr);
        }
        ColumnSumStep(f, r, c, j, val);
        s := s + val * f.Ax[j];
        j := j + 1;
      }
      if r == c {
        var diagElem := diag[r];
        result := diagElem * (diagElem - s);
      } else {
        result := -s * diag[r];
      }
      EntryUnfolds(f, r, c, diag[r], s, result);
      AgreesAfterInsert(f, lookup, r, c, result);
      lookup := lookup[idx := result];
    }

    /** The entry behind row i and column j of the original, unpermuted matrix. */
    function Wanted(i: int, j: int): (e: MatrixElem)
      reads this
      ensures Valid() && 0 <= i < factor.n && 0 <= j < factor.n ==> 0 <= e.r <= e.c < factor.n
    {
      Upper(Place(i), Place(j))
    }

    ghost function Marginal(i: int, j: int): real
      reads this`factor, this`order
    {
      Covariance(factor, order)(i, j)
    }

    ghost predicate Known(e: MatrixElem)
      reads this
    {
      Index(factor.n, e.r, e.c) in lookup
    }

    /** Computes the entries in the given order, whatever it is. */
    method ComputeEntries(elems: seq<MatrixElem>)
      requires Valid() && forall e :: e in elems ==> 0 <= e.r <= e.c < factor.n
      modifies this`lookup
      ensures Valid() && old(lookup.Keys) <= lookup.Keys
      ensures forall e :: e in elems ==> Known(e)
    {
      var i := 0;
      while i < |elems|
        invariant 0 <= i <= |elems|
        invariant Valid() && old(lookup.Keys) <= lookup.Keys
        invariant forall k :: 0 <= k < i ==> Known(elems[k])
      {
        var _ := ComputeEntry(elems[i].r, elems[i].c);
        i := i + 1;
      }
    }

    method CollectBlock(base: int, vdim: int) returns (elems: seq<MatrixElem>)
      requires Valid() && 0 <= base && 0 <= vdim && base + vdim <= factor.n
      ensures forall e :: e in elems ==> 0 <= e.r <= e.c < factor.n
      ensures forall i, j :: base <= i <= j < base + vdim ==> Wanted(i, j) in elems
    {
      elems := [];
      var rr := 0;
      while rr < vdim
        invariant 0 <= rr <= vdim
        invariant forall e :: e in elems ==> 0 <= e.r <= e.c < factor.n
        invariant forall i, j :: base <= i < base + rr && i <= j < base + vdim ==> Wanted(i, j) in elems
      {
        var cc := rr;
        while cc < vdim
          invariant rr <= cc <= vdim
          invariant forall e :: e in elems ==> 0 <= e.r <= e.c < factor.n
          invariant forall i, j :: base <= i <= j < base + vdim && (i < base + rr || (i == base + rr && j < base + cc)) ==>
                      Wanted(i, j) in elems
        {
          elems := elems + [Wanted(base + rr, base + cc)];
          cc := cc + 1;
        }
        rr := rr + 1;
      }
    }

    /** Copies one symmetric block out of the lookup table, row by row and mirrored. */
    method WriteBlock(cov: array<real>, base: int, vdim: int)
      requires Valid() && 0 <= base && 0 <= vdim && base + vdim <= factor.n
      requires HasRoom(cov.Length, vdim)
      requires forall i, j :: base <= i <= j < base + vdim ==> Known(Wanted(i, j))
      modifies cov
      ensures BlockWritten(cov[..], base, vdim, Covariance(factor, order))
    {
      hide Covariance, ValidFactor, Agrees, Reciprocal;
      forall a, b | 0 <= a < vdim && 0 <= b < vdim
        ensures 0 <= Index(vdim, a, b) < cov.Length
      {
        IndexInRange(vdim, a, b);
      }
      var rr := 0;
      while rr < vdim
        invariant 0 <= rr <= vdim
        invariant forall a, b :: 0 <= a < vdim && 0 <= b < vdim && (a < rr || b < rr) ==>
                    cov[Index(vdim, a, b)] == Marginal(base + a, base + b)
      {
        var cc := rr;
        while cc < vdim
          invariant rr <= cc <= vdim
          invariant forall a, b :: 0 <= a < vdim && 0 <= b < vdim
                                   && (a < rr || b < rr || (a == rr && b < cc) || (b == rr && a < cc)) ==>
                      cov[Index(vdim, a, b)] == Marginal(base + a, base + b)
        {
          WriteMirrored(cov, vdim, rr, cc, Lookup(base + rr, base + cc));
          cc := cc + 1;
        }
        rr := rr + 1;
      }
    }

    function Lookup(i: int, j: int): (x: real)
      requires Valid() && 0 <= i < factor.n && 0 <= j < factor.n && Known(Wanted(i, j))
      reads this
      ensures x == Marginal(i, j) == Marginal(j, i)
    {
      var e := Wanted(i, j);
      lookup[Index(factor.n, e.r, e.c)]
    }

    ghost predicate ValidLayout(blockIndices: seq<nat>)
      reads this
    {
      forall k :: 0 <= k < |blockIndices| ==> InLayout(blockIndices, k, factor.n)
    }

    ghost predicate ValidMemory(covBlocks: seq<array<real>>, blockIndices: seq<nat>)
    {
      && |covBlocks| == |blockIndices|
      && (forall i, j :: 0 <= i < j < |covBlocks| ==> covBlocks[i] != covBlocks[j])
      && (forall k :: 0 <= k < |blockIndices| ==> HasRoom(covBlocks[k].Length, Dim(blockIndices, k)))
    }

    method CollectBlocks(blockIndices: seq<nat>) returns (elems: seq<MatrixElem>)
      requires Valid() && ValidLayout(blockIndices)
      ensures forall e :: e in elems ==> 0 <= e.r <= e.c < factor.n
      ensures forall k, a, b :: 0 <= k < |blockIndices| && InBlock(blockIndices, k, a, b) ==> Wanted(a, b) in elems
    {
      elems := [];
      var base := 0;
      var i := 0;
      while i < |blockIndices|
        invariant 0 <= i <= |blockIndices| && (i < |blockIndices| ==> base == Base(blockIndices, i))
        invariant forall e :: e in elems ==> 0 <= e.r <= e.c < factor.n
        invariant forall k, a, b :: 0 <= k < i && InBlock(blockIndices, k, a, b) ==> Wanted(a, b) in elems
      {
        var nbase := blockIndices[i];
        assert InLayout(blockIndices, i, factor.n) && nbase - base == Dim(blockIndices, i);
        var more := CollectBlock(base, nbase - base);
        elems := elems + more;
        base := nbase;
        i := i + 1;
      }
    }

    method WriteBlocks(covBlocks: seq<array<real>>, blockIndices: seq<nat>)
      requires Valid() && ValidLayout(blockIndices) && ValidMemory(covBlocks, blockIndices)
      requires forall k, a, b :: 0 <= k < |blockIndices| && InBlock(blockIndices, k, a, b) ==> Known(Wanted(a, b))
      modifies covBlocks
      ensures forall k :: 0 <= k < |blockIndices| ==>
                BlockDone(covBlocks[k][..], blockIndices, k, Covariance(factor, order))
    {
      var base := 0;
      var i := 0;
      while i < |blockIndices|
        invariant 0 <= i <= |blockIndices| && (i < |blockIndices| ==> base == Base(blockIndices, i))
        invariant forall k :: 0 <= k < i ==>
                    BlockDone(covBlocks[k][..], blockIndices, k, Covariance(factor, order))
      {
        var nbase := blockIndices[i];
        assert InLayout(blockIndices, i, factor.n) && nbase - base == Dim(blockIndices, i);
        forall a, b | base <= a <= b < nbase ensures Known(Wanted(a, b)) {
          assert InBlock(blockIndices, i, a, b);
        }
        ghost var done := seq(i, k requires 0 <= k < i reads covBlocks => covBlocks[k][..]);
        WriteBlock(covBlocks[i], base, nbase - base);
        assert forall k :: 0 <= k < i ==> covBlocks[k][..] == done[k];
        base := nbase;
        i := i + 1;
      }
    }

    /**
     The marginal covariance of every diagonal block, in the order of the original matrix: the blocks of the
     inverse of any matrix that the factor belongs to.
     */
    method ComputeCovariance(covBlocks: seq<array<real>>, blockIndices: seq<nat>)
      requires HasFactor() && ValidLayout(blockIndices) && ValidMemory(covBlocks, blockIndices)
      modifies this`lookup, covBlocks
      ensures Valid()
      ensures forall k :: 0 <= k < |blockIndices| ==>
                BlockDone(covBlocks[k][..], blockIndices, k, Covariance(factor, order))
      ensures forall k, H: Matrix, X: Matrix :: 0 <= k < |blockIndices| && IsFactorOf(factor, order, H) && RightInverse(factor.n, H, X) ==>
                BlockDone(covBlocks[k][..], blockIndices, k, X)
    {
      lookup := map[];
      var elems := CollectBlocks(blockIndices);
      var sorted := SortElems(elems);
      forall e ensures e in sorted <==> e in elems {
        assert e in multiset(sorted) <==> e in multiset(elems);
      }
      ComputeEntries(sorted);
      WriteBlocks(covBlocks, blockIndices);
      forall k, H: Matrix, X: Matrix | 0 <= k < |blockIndices| && IsFactorOf(factor, order, H) && RightInverse(factor.n, H, X)
        ensures BlockDone(covBlocks[k][..], blockIndices, k, X)
      {
        BlockOfInverse(factor, order, H, X, covBlocks[k][..], blockIndices, k);
      }
    }
  }

  /** The row-major square block holds the entries of M at positions base .. base + vdim - 1. */
  ghost predicate BlockWritten(cov: seq<real>, base: int, vdim: int, M: Matrix) {
    forall a, b :: 0 <= a < vdim && 0 <= b < vdim ==>
      && 0 <= Index(vdim, a, b) < |cov|
      && cov[Index(vdim, a, b)] == M(base + a, base + b)
  }

  ghost predicate BlockDone(cov: seq<real>, blockIndices: seq<nat>, k: nat, M: Matrix) {
    BlockWritten(cov, Base(blockIndices, k), Dim(blockIndices, k), M)
  }

  lemma BlockOfInverse(f: Factor, order: Reordering, H: Matrix, X: Matrix, cov: seq<real>, blockIndices: seq<nat>, k: nat)
    requires ValidFactor(f) && ValidOrder(order, f.n) && IsFactorOf(f, order, H) && RightInverse(f.n, H, X)
    requires InLayout(blockIndices, k, f.n) && BlockDone(cov, blockIndices, k, Covariance(f, order))
    ensures BlockDone(cov, blockIndices, k, X)
  {
    hide ValidFactor, ValidOrder, IsFactorOf, RightInverse, Covariance;
    var base, vdim := Base(blockIndices, k), Dim(blockIndices, k);
    forall i, j | base <= i < base + vdim && base <= j < base + vdim ensures Covariance(f, order)(i, j) == X(i, j) {
      CovarianceIsTheInverse(f, order, H, X, i, j);
    }
  }

  ghost predicate InLayout(blockIndices: seq<nat>, k: nat, n: int) {
    k < |blockIndices| && Base(blockIndices, k) <= blockIndices[k] <= n
  }

  ghost predicate HasRoom(length: int, dim: int) {
    length >= dim * dim
  }

  ghost predicate InBlock(blockIndices: seq<nat>, k: nat, i: int, j: int) {
    Base(blockIndices, k) <= i <= j < Base(blockIndices, k) + Dim(blockIndices, k)
  }

  /** Later columns first, and later rows first within a column. */
  predicate Before(a: MatrixElem, b: MatrixElem) {
    a.c > b.c || (a.c == b.c && a.r > b.r)
  }

  ghost predicate Ordered(elems: seq<MatrixElem>) {
    forall i, j :: 0 <= i < j < |elems| ==> !Before(elems[j], elems[i])
  }

  method Insert(elems: seq<MatrixElem>, e: MatrixElem) returns (r: seq<MatrixElem>)
    requires Ordered(elems)
    ensures Ordered(r)
    ensures multiset(r) == multiset(elems) + multiset{e}
  {
    var k := 0;
    while k < |elems| && !Before(e, elems[k])
      invariant 0 <= k <= |elems|
      invariant forall a :: 0 <= a < k ==> !Before(e, elems[a])
    {
      k := k + 1;
    }
    r := elems[..k] + [e] + elems[k..];
    assert elems == elems[..k] + elems[k..];
    assert k < |elems| ==> forall a :: k <= a < |elems| ==> !Before(elems[a], e) by {
      if k < |elems| {
        forall a | k <= a < |elems| ensures !Before(elems[a], e) {
          assert a > k ==> !Before(elems[a], elems[k]);
        }
      }
    }
  }

  method SortElems(elems: seq<MatrixElem>) returns (sorted: seq<MatrixElem>)
    ensures multiset(sorted) == multiset(elems) && Ordered(sorted)
  {
    sorted := [];
    var i := 0;
    while i < |elems|
      invariant 0 <= i <= |elems|
      invariant multiset(sorted) == multiset(elems[..i]) && Ordered(sorted)
    {
      assert elems[..i + 1] == elems[..i] + [elems[i]];
      sorted := Insert(sorted, elems[i]);
      i := i + 1;
    }
    assert elems[..i] == elems;
  }
}
