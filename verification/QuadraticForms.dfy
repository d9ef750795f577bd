/**
 What the measurements of the edges contribute to the normal equations: J^T Omega J and -J^T Omega e,
 as a dense matrix and vector over all free vertices, and block by block.
 */
module QuadraticForms {
  import opened Sums
  import opened LinearAlgebra
  import opened Options
  import opened BlockLayout
  import opened SparseBlocks
  import opened QuadraticModel

  /**
   A linearised edge: the position of each of its vertices among the free ones (none when fixed), one
   Jacobian per vertex, the (weighted) information matrix and the error.
   */
  datatype Measurement = Measurement(ends: seq<Option<nat>>, dimension: nat, jacobians: seq<Matrix>, information: Matrix, error: Vector)

  /** No free vertex occurs twice. */
  ghost predicate DistinctEnds(ends: seq<Option<nat>>) {
    forall s, t :: 0 <= s < t < |ends| && ends[s].Some? ==> ends[s] != ends[t]
  }

  ghost predicate ValidMeasurement(m: Measurement) {
    |m.jacobians| == |m.ends| && SymmetricMatrix(m.dimension, m.information) && DistinctEnds(m.ends)
  }

  /** The slot of vertex i in the edge; the number of slots if it has none. */
  ghost function SlotFrom(ends: seq<Option<nat>>, i: nat, from: nat): nat
    decreases |ends| - from
  {
    if from >= |ends| || ends[from] == Some(i) then from else SlotFrom(ends, i, from + 1)
  }

  lemma {:induction false} SlotFinds(ends: seq<Option<nat>>, i: nat, from: nat, s: nat)
    requires from <= s < |ends| && ends[s] == Some(i) && forall t :: from <= t < s ==> ends[t] != Some(i)
    ensures SlotFrom(ends, i, from) == s
    decreases s - from
  {
    if from < s {
      SlotFinds(ends, i, from + 1, s);
    }
  }

  lemma {:induction false} SlotIsEnd(ends: seq<Option<nat>>, i: nat, from: nat)
    requires from <= |ends|
    ensures SlotFrom(ends, i, from) < |ends| ==> ends[SlotFrom(ends, i, from)] == Some(i)
    decreases |ends| - from
  {
    if from < |ends| && ends[from] != Some(i) {
      SlotIsEnd(ends, i, from + 1);
    }
  }

  lemma SlotOf(m: Measurement, s: nat)
    requires ValidMeasurement(m) && s < |m.ends| && m.ends[s].Some?
    ensures SlotFrom(m.ends, m.ends[s].value, 0) == s
  {
    SlotFinds(m.ends, m.ends[s].value, 0, s);
  }

  /** The Jacobian by vertex i, zero if the edge does not touch it. */
  ghost function Jacobian(m: Measurement, i: nat): Matrix {
    var s := SlotFrom(m.ends, i, 0);
    if s < |m.ends| && s < |m.jacobians| then m.jacobians[s] else Zero()
  }

  /** The Jacobian by all free vertices, whose blocks of coordinates end where layout says. */
  ghost function FlatEntry(m: Measurement, layout: seq<nat>, d: int, p: int): real {
    var i := BlockOf(layout, p);
    Jacobian(m, i)(d, p - Base(layout, i))
  }

  ghost function FlatJacobian(m: Measurement, layout: seq<nat>): Matrix {
    (d, p) => FlatEntry(m, layout, d, p)
  }

  /** J^T Omega J */
  ghost function Sandwich(m: Measurement, A: Matrix, B: Matrix): Matrix {
    MatMul(m.dimension, MatMul(m.dimension, Transpose(A), m.information), B)
  }

  ghost function EdgeHessian(m: Measurement, layout: seq<nat>): Matrix {
    Sandwich(m, FlatJacobian(m, layout), FlatJacobian(m, layout))
  }

  function WeightedError(m: Measurement): Vector {
    d => -MatVec(m.dimension, m.information, m.error)(d)
  }

  /** -J^T Omega e */
  ghost function EdgeGradient(m: Measurement, layout: seq<nat>): Vector {
    MatVec(m.dimension, Transpose(FlatJacobian(m, layout)), WeightedError(m))
  }

  /** The block of J^T Omega J for the vertices i and j, and of -J^T Omega e for the vertex i. */
  ghost function PairTerm(m: Measurement, i: nat, j: nat): Matrix {
    Sandwich(m, Jacobian(m, i), Jacobian(m, j))
  }

  ghost function GradientTerm(m: Measurement, i: nat): Vector {
    MatVec(m.dimension, Transpose(Jacobian(m, i)), WeightedError(m))
  }

  lemma SandwichCong(m: Measurement, A: Matrix, A': Matrix, p: int, p': int, B: Matrix, B': Matrix, q: int, q': int)
    requires forall d :: A(d, p) == A'(d, p') && B(d, q) == B'(d, q')
    ensures Sandwich(m, A, B)(p, q) == Sandwich(m, A', B')(p', q')
  {
    var n := m.dimension;
    var AO, AO' := MatMul(n, Transpose(A), m.information), MatMul(n, Transpose(A'), m.information);
    forall k ensures AO(p, k) == AO'(p', k) {
      SumCong(0, n, Product(Transpose(A), p, m.information, k), Product(Transpose(A'), p', m.information, k));
    }
    SumCong(0, n, Product(AO, p, B, q), Product(AO', p', B', q'));
  }

  /** Entry (p, q) of the dense contribution lies in the block of the vertices that own p and q. */
  lemma HessianInBlock(m: Measurement, layout: seq<nat>, i: nat, p: int, j: nat, q: int)
    requires Monotone(layout) && Within(layout, i, p) && Within(layout, j, q)
    ensures EdgeHessian(m, layout)(p, q) == PairTerm(m, i, j)(p - Base(layout, i), q - Base(layout, j))
  {
    hide Sandwich, Jacobian;
    BlockUnique(layout, i, p);
    BlockUnique(layout, j, q);
    SandwichCong(m, FlatJacobian(m, layout), Jacobian(m, i), p, p - Base(layout, i),
                 FlatJacobian(m, layout), Jacobian(m, j), q, q - Base(layout, j));
  }

  lemma GradientInBlock(m: Measurement, layout: seq<nat>, i: nat, p: int)
    requires Monotone(layout) && Within(layout, i, p)
    ensures EdgeGradient(m, layout)(p) == GradientTerm(m, i)(p - Base(layout, i))
  {
    hide Jacobian;
    BlockUnique(layout, i, p);
    SumCong(0, m.dimension, Terms(Transpose(FlatJacobian(m, layout)), p, WeightedError(m)),
            Terms(Transpose(Jacobian(m, i)), p - Base(layout, i), WeightedError(m)));
  }

  /** With a symmetric information matrix the contribution is symmetric. */
  lemma SandwichTranspose(m: Measurement, A: Matrix, B: Matrix, p: int, q: int)
    requires SymmetricMatrix(m.dimension, m.information)
    ensures Sandwich(m, A, B)(p, q) == Sandwich(m, B, A)(q, p)
  {
    var n, O := m.dimension, m.information;
    var At, Bt := Transpose(A), Transpose(B);
    calc {
      MatMul(n, MatMul(n, At, O), B)(p, q);
      { MatMulTranspose(n, MatMul(n, At, O), B, p, q); }
      MatMul(n, Bt, Transpose(MatMul(n, At, O)))(q, p);
      {
        forall k | 0 <= k < n ensures Transpose(MatMul(n, At, O))(k, p) == MatMul(n, O, A)(k, p) {
          MatMulTranspose(n, At, O, p, k);
          MatMulCong(n, Transpose(O), O, Transpose(At), A, k, p);
        }
        MatMulCong(n, Bt, Bt, Transpose(MatMul(n, At, O)), MatMul(n, O, A), q, p);
      }
      MatMul(n, Bt, MatMul(n, O, A))(q, p);
      { MatMulAssoc(n, n, Bt, O, A, q, p); }
      MatMul(n, MatMul(n, Bt, O), A)(q, p);
    }
  }

  lemma NoTermWithout(m: Measurement, i: nat, j: nat, a: int, b: int)
    requires SlotFrom(m.ends, i, 0) >= |m.ends| || SlotFrom(m.ends, j, 0) >= |m.ends|
    ensures PairTerm(m, i, j)(a, b) == 0.0
  {
    var n := m.dimension;
    var At, B := Transpose(Jacobian(m, i)), Jacobian(m, j);
    var AO := MatMul(n, At, m.information);
    if SlotFrom(m.ends, i, 0) >= |m.ends| {
      forall k ensures AO(a, k) == 0.0 {
        forall d ensures Product(At, a, m.information, k)(d) == 0.0 {
          ZeroLeft(At(a, d), m.information(d, k));
        }
        SumZero(0, n, Product(At, a, m.information, k));
      }
      forall k ensures Product(AO, a, B, b)(k) == 0.0 {
        ZeroLeft(AO(a, k), B(k, b));
      }
    } else {
      forall k ensures Product(AO, a, B, b)(k) == 0.0 {
        ZeroLeft(B(k, b), AO(a, k));
      }
    }
    SumZero(0, n, Product(AO, a, B, b));
  }

  lemma ZeroLeft(x: real, y: real)
    ensures x == 0.0 ==> x * y == 0.0 && y * x == 0.0
  {
  }

  lemma NoGradientWithout(m: Measurement, i: nat, a: int)
    requires SlotFrom(m.ends, i, 0) >= |m.ends|
    ensures GradientTerm(m, i)(a) == 0.0
  {
    var At := Transpose(Jacobian(m, i));
    forall d ensures Terms(At, a, WeightedError(m))(d) == 0.0 {
      ZeroLeft(At(a, d), WeightedError(m)(d));
    }
    SumZero(0, m.dimension, Terms(At, a, WeightedError(m)));
  }

  // ----- All edges together

  ghost function BlockTerms(ms: seq<Measurement>, i: nat, j: nat, a: int, b: int): Vector {
    e => if 0 <= e < |ms| then PairTerm(ms[e], i, j)(a, b) else 0.0
  }

  ghost function HessianTerms(ms: seq<Measurement>, layout: seq<nat>, p: int, q: int): Vector {
    e => if 0 <= e < |ms| then EdgeHessian(ms[e], layout)(p, q) else 0.0
  }

  /** The sum of J^T Omega J over all edges. */
  ghost function Hessian(ms: seq<Measurement>, layout: seq<nat>): Matrix {
    (p, q) => Sum(0, |ms|, HessianTerms(ms, layout, p, q))
  }

  ghost function GradientTerms(ms: seq<Measurement>, layout: seq<nat>, p: int): Vector {
    e => if 0 <= e < |ms| then EdgeGradient(ms[e], layout)(p) else 0.0
  }

  /** Minus the sum of J^T Omega e over all edges. */
  ghost function Gradient(ms: seq<Measurement>, layout: seq<nat>): Vector {
    p => Sum(0, |ms|, GradientTerms(ms, layout, p))
  }

  ghost function VertexTerms(ms: seq<Measurement>, i: nat, a: int): Vector {
    e => if 0 <= e < |ms| then GradientTerm(ms[e], i)(a) else 0.0
  }

  lemma HessianBlock(ms: seq<Measurement>, layout: seq<nat>, i: nat, p: int, j: nat, q: int)
    requires Monotone(layout) && Within(layout, i, p) && Within(layout, j, q)
    ensures Hessian(ms, layout)(p, q) == Sum(0, |ms|, BlockTerms(ms, i, j, p - Base(layout, i), q - Base(layout, j)))
  {
    hide EdgeHessian, PairTerm, Within, Base;
    forall e | 0 <= e < |ms|
      ensures HessianTerms(ms, layout, p, q)(e) == BlockTerms(ms, i, j, p - Base(layout, i), q - Base(layout, j))(e)
    {
      HessianInBlock(ms[e], layout, i, p, j, q);
    }
    SumCong(0, |ms|, HessianTerms(ms, layout, p, q), BlockTerms(ms, i, j, p - Base(layout, i), q - Base(layout, j)));
  }

  lemma GradientBlock(ms: seq<Measurement>, layout: seq<nat>, i: nat, p: int)
    requires Monotone(layout) && Within(layout, i, p)
    ensures Gradient(ms, layout)(p) == Sum(0, |ms|, VertexTerms(ms, i, p - Base(layout, i)))
  {
    hide EdgeGradient, GradientTerm, Within, Base;
    forall e | 0 <= e < |ms| ensures GradientTerms(ms, layout, p)(e) == VertexTerms(ms, i, p - Base(layout, i))(e) {
      GradientInBlock(ms[e], layout, i, p);
    }
    SumCong(0, |ms|, GradientTerms(ms, layout, p), VertexTerms(ms, i, p - Base(layout, i)));
  }

  lemma EdgeHessianSymmetric(m: Measurement, layout: seq<nat>, p: int, q: int)
    requires ValidMeasurement(m)
    ensures EdgeHessian(m, layout)(p, q) == EdgeHessian(m, layout)(q, p)
  {
    SandwichTranspose(m, FlatJacobian(m, layout), FlatJacobian(m, layout), p, q);
  }

  lemma HessianSymmetric(ms: seq<Measurement>, layout: seq<nat>, p: int, q: int)
    requires forall e :: 0 <= e < |ms| ==> ValidMeasurement(ms[e])
    ensures Hessian(ms, layout)(p, q) == Hessian(ms, layout)(q, p)
  {
    hide EdgeHessian, ValidMeasurement;
    forall e | 0 <= e < |ms| ensures HessianTerms(ms, layout, p, q)(e) == HessianTerms(ms, layout, q, p)(e) {
      EdgeHessianSymmetric(ms[e], layout, p, q);
    }
    SumCong(0, |ms|, HessianTerms(ms, layout, p, q), HessianTerms(ms, layout, q, p));
  }

  // ----- The assembled matrix is positive semidefinite

  /** x . (A^T y) == (A x) . y, where A has m rows and n columns. */
  lemma Adjoint(n: nat, m: nat, A: Matrix, x: Vector, y: Vector)
    ensures Dot(n, x, MatVec(m, Transpose(A), y)) == Dot(m, MatVec(n, A, x), y)
  {
    var F: Matrix := (p, d) => x(p) * A(d, p) * y(d);
    var rows, columns := Products(x, MatVec(m, Transpose(A), y)), Products(MatVec(n, A, x), y);
    forall p ensures rows(p) == Sum(0, m, d => F(p, d)) {
      AdjointRow(m, A, x, y, p, d => F(p, d));
    }
    forall d ensures columns(d) == Sum(0, n, p => F(p, d)) {
      AdjointColumn(n, A, x, y, d, p => F(p, d));
    }
    SumSwap(0, n, 0, m, F, rows, columns);
    DotIsSum(n, x, MatVec(m, Transpose(A), y));
    DotIsSum(m, MatVec(n, A, x), y);
  }

  lemma AdjointRow(m: nat, A: Matrix, x: Vector, y: Vector, p: int, f: Vector)
    requires forall d :: f(d) == x(p) * A(d, p) * y(d)
    ensures x(p) * MatVec(m, Transpose(A), y)(p) == Sum(0, m, f)
  {
    forall d ensures f(d) == x(p) * Terms(Transpose(A), p, y)(d) {
      Associate(x(p), A(d, p), y(d));
    }
    SumScale(0, m, x(p), Terms(Transpose(A), p, y), f);
  }

  lemma AdjointColumn(n: nat, A: Matrix, x: Vector, y: Vector, d: int, f: Vector)
    requires forall p :: f(p) == x(p) * A(d, p) * y(d)
    ensures MatVec(n, A, x)(d) * y(d) == Sum(0, n, f)
  {
    forall p ensures f(p) == y(d) * Terms(A, d, x)(p) {
      Associate(x(p), A(d, p), y(d));
    }
    SumScale(0, n, y(d), Terms(A, d, x), f);
  }

  lemma Associate(x: real, y: real, z: real)
    ensures x * y * z == x * (y * z) == z * (y * x)
  {
  }

  /** x^T (J^T Omega J) x == (J x)^T Omega (J x) */
  lemma EdgeForm(n: nat, m: Measurement, layout: seq<nat>, x: Vector)
    ensures var Jx := MatVec(n, FlatJacobian(m, layout), x);
            Form(n, EdgeHessian(m, layout), x, x) == Form(m.dimension, m.information, Jx, Jx)
  {
    var D, J, O := m.dimension, FlatJacobian(m, layout), m.information;
    var Jx := MatVec(n, J, x);
    hide FlatJacobian;
    forall p ensures MatVec(n, EdgeHessian(m, layout), x)(p) == MatVec(D, Transpose(J), MatVec(D, O, Jx))(p) {
      MatVecAssoc(D, n, MatMul(D, Transpose(J), O), J, x, p);
      MatVecAssoc(D, D, Transpose(J), O, Jx, p);
    }
    DotCong(n, x, x, MatVec(n, EdgeHessian(m, layout), x), MatVec(D, Transpose(J), MatVec(D, O, Jx)));
    Adjoint(n, D, J, x, MatVec(D, O, Jx));
  }

  /** Adding one edge adds its form. */
  lemma HessianStep(ms: seq<Measurement>, layout: seq<nat>, m: Measurement, p: int, q: int)
    ensures Hessian(ms + [m], layout)(p, q) == Hessian(ms, layout)(p, q) + EdgeHessian(m, layout)(p, q)
  {
    hide EdgeHessian;
    forall e | 0 <= e < |ms| ensures HessianTerms(ms + [m], layout, p, q)(e) == HessianTerms(ms, layout, p, q)(e) {
      assert (ms + [m])[e] == ms[e];
    }
    SumCong(0, |ms|, HessianTerms(ms + [m], layout, p, q), HessianTerms(ms, layout, p, q));
    assert (ms + [m])[|ms|] == m;
  }

  lemma FormAdds(n: nat, H: Matrix, A: Matrix, B: Matrix, x: Vector)
    requires forall p, q :: H(p, q) == A(p, q) + B(p, q)
    ensures Form(n, H, x, x) == Form(n, A, x, x) + Form(n, B, x, x)
  {
    forall p ensures MatVec(n, H, x)(p) == Plus(MatVec(n, A, x), Scale(1.0, MatVec(n, B, x)))(p) {
      forall q ensures Terms(H, p, x)(q) == Terms(A, p, x)(q) + Terms(B, p, x)(q) {
        LinearTerm(x(q), A(p, q), 1.0, B(p, q));
      }
      SumAdd(0, n, Terms(A, p, x), Terms(B, p, x), Terms(H, p, x));
    }
    DotCong(n, x, x, MatVec(n, H, x), Plus(MatVec(n, A, x), Scale(1.0, MatVec(n, B, x))));
    DotLinearRight(n, 1.0, MatVec(n, A, x), MatVec(n, B, x), x);
  }

  lemma {:induction false} HessianSemidefinite(n: nat, ms: seq<Measurement>, layout: seq<nat>, x: Vector)
    requires forall e :: 0 <= e < |ms| ==> PositiveSemidefinite(ms[e].dimension, ms[e].information)
    ensures Form(n, Hessian(ms, layout), x, x) >= 0.0
    decreases |ms|
  {
    if ms == [] {
      EmptyForm(n, Hessian(ms, layout), x);
    } else {
      var front, m := ms[..|ms| - 1], ms[|ms| - 1];
      assert ms == front + [m];
      hide Hessian, EdgeHessian, Form;
      HessianSemidefinite(n, front, layout, x);
      forall p, q ensures Hessian(ms, layout)(p, q) == Hessian(front, layout)(p, q) + EdgeHessian(m, layout)(p, q) {
        HessianStep(front, layout, m, p, q);
      }
      FormAdds(n, Hessian(ms, layout), Hessian(front, layout), EdgeHessian(m, layout), x);
      EdgeForm(n, m, layout, x);
      InformationForm(m, MatVec(n, FlatJacobian(m, layout), x));
    }
  }

  lemma InformationForm(m: Measurement, y: Vector)
    requires PositiveSemidefinite(m.dimension, m.information)
    ensures Form(m.dimension, m.information, y, y) >= 0.0
  {
  }

  lemma EmptyForm(n: nat, H: Matrix, x: Vector)
    requires forall p, q :: H(p, q) == 0.0
    ensures Form(n, H, x, x) == 0.0
  {
    forall p ensures MatVec(n, H, x)(p) == 0.0 {
      SumZero(0, n, Terms(H, p, x));
    }
    forall p ensures Products(x, MatVec(n, H, x))(p) == 0.0 {
      ZeroLeft(MatVec(n, H, x)(p), x(p));
    }
    DotIsSum(n, x, MatVec(n, H, x));
    SumZero(0, n, Products(x, MatVec(n, H, x)));
  }

  // ----- What the right hand side is for: the gain of the linearised cost

  /** The error that the linearised edge predicts after the increment x. */
  ghost function PredictedError(n: nat, m: Measurement, layout: seq<nat>, x: Vector): Vector {
    d => m.error(d) + MatVec(n, FlatJacobian(m, layout), x)(d)
  }

  /** (e + J x)^T Omega (e + J x) */
  ghost function PredictedCost(n: nat, m: Measurement, layout: seq<nat>, x: Vector): real {
    Form(m.dimension, m.information, PredictedError(n, m, layout, x), PredictedError(n, m, layout, x))
  }

  ghost function TotalCost(n: nat, ms: seq<Measurement>, layout: seq<nat>, x: Vector): real {
    if ms == [] then 0.0
    else TotalCost(n, ms[..|ms| - 1], layout, x) + PredictedCost(n, ms[|ms| - 1], layout, x)
  }

  ghost function NoIncrement(): Vector {
    i => 0.0
  }

  /** (-J^T Omega e) . x == -(e^T Omega J x) */
  lemma GradientForm(n: nat, m: Measurement, layout: seq<nat>, x: Vector)
    requires SymmetricMatrix(m.dimension, m.information)
    ensures Dot(n, EdgeGradient(m, layout), x)
         == -Form(m.dimension, m.information, m.error, MatVec(n, FlatJacobian(m, layout), x))
  {
    var D, J, O := m.dimension, FlatJacobian(m, layout), m.information;
    var Jx, Oe := MatVec(n, J, x), MatVec(D, O, m.error);
    hide FlatJacobian, Form;
    DotSymmetric(n, EdgeGradient(m, layout), x);
    Adjoint(n, D, J, x, WeightedError(m));
    DotCong(D, Jx, Jx, WeightedError(m), Scale(-1.0, Oe));
    DotScale(D, -1.0, Oe, Jx);
    FormIsDot(D, O, Jx, m.error);
    FormSymmetric(D, O, Jx, m.error);
  }

  lemma FormIsDot(n: nat, H: Matrix, x: Vector, y: Vector)
    ensures Form(n, H, x, y) == Dot(n, x, MatVec(n, H, y))
  {
  }

  /** What one edge loses by the increment x. */
  lemma EdgeGain(n: nat, m: Measurement, layout: seq<nat>, x: Vector)
    requires ValidMeasurement(m)
    ensures PredictedCost(n, m, layout, NoIncrement()) - PredictedCost(n, m, layout, x)
         == Gain(n, EdgeHessian(m, layout), EdgeGradient(m, layout), x)
  {
    var D, O, e, Jx := m.dimension, m.information, m.error, MatVec(n, FlatJacobian(m, layout), x);
    CostAtStart(n, m, layout);
    CostAfter(n, m, layout, x);
    GradientForm(n, m, layout, x);
    EdgeForm(n, m, layout, x);
  }

  lemma CostAtStart(n: nat, m: Measurement, layout: seq<nat>)
    ensures PredictedCost(n, m, layout, NoIncrement()) == Form(m.dimension, m.information, m.error, m.error)
  {
    var e := PredictedError(n, m, layout, NoIncrement());
    forall d ensures e(d) == m.error(d) {
      forall k ensures Terms(FlatJacobian(m, layout), d, NoIncrement())(k) == 0.0 {
        ZeroLeft(NoIncrement()(k), FlatJacobian(m, layout)(d, k));
      }
      SumZero(0, n, Terms(FlatJacobian(m, layout), d, NoIncrement()));
    }
    FormCong(m.dimension, m.information, e, m.error);
  }

  lemma FormCong(n: nat, H: Matrix, x: Vector, y: Vector)
    requires forall d :: x(d) == y(d)
    ensures Form(n, H, x, x) == Form(n, H, y, y)
  {
    forall i ensures MatVec(n, H, x)(i) == MatVec(n, H, y)(i) {
      SumCong(0, n, Terms(H, i, x), Terms(H, i, y));
    }
    DotCong(n, x, y, MatVec(n, H, x), MatVec(n, H, y));
  }

  /** e^T Omega e + 2 e^T Omega Jx + (Jx)^T Omega Jx */
  ghost function ExpandedCost(m: Measurement, Jx: Vector): real {
    var D, O, e := m.dimension, m.information, m.error;
    Form(D, O, e, e) + 2.0 * Form(D, O, e, Jx) + Form(D, O, Jx, Jx)
  }

  lemma CostAfter(n: nat, m: Measurement, layout: seq<nat>, x: Vector)
    requires SymmetricMatrix(m.dimension, m.information)
    ensures PredictedCost(n, m, layout, x) == ExpandedCost(m, MatVec(n, FlatJacobian(m, layout), x))
  {
    var Jx := MatVec(n, FlatJacobian(m, layout), x);
    FormCong(m.dimension, m.information, PredictedError(n, m, layout, x), Plus(m.error, Scale(1.0, Jx)));
    FormExpands(m.dimension, m.information, 1.0, m.error, Jx);
  }

  lemma GradientStep(ms: seq<Measurement>, layout: seq<nat>, m: Measurement, p: int)
    ensures Gradient(ms + [m], layout)(p) == Gradient(ms, layout)(p) + EdgeGradient(m, layout)(p)
  {
    hide EdgeGradient;
    forall e | 0 <= e < |ms| ensures GradientTerms(ms + [m], layout, p)(e) == GradientTerms(ms, layout, p)(e) {
      assert (ms + [m])[e] == ms[e];
    }
    SumCong(0, |ms|, GradientTerms(ms + [m], layout, p), GradientTerms(ms, layout, p));
    assert (ms + [m])[|ms|] == m;
  }

  lemma GainAdds(n: nat, H: Matrix, A: Matrix, B: Matrix, g: Vector, a: Vector, b: Vector, x: Vector)
    requires forall p, q :: H(p, q) == A(p, q) + B(p, q)
    requires forall p :: g(p) == a(p) + b(p)
    ensures Gain(n, H, g, x) == Gain(n, A, a, x) + Gain(n, B, b, x)
  {
    FormAdds(n, H, A, B, x);
    DotCong(n, g, Plus(a, Scale(1.0, b)), x, x);
    DotLinear(n, 1.0, a, b, x);
  }

  /**
   The quadratic model of the assembled system is the cost of the linearised edges: the increment x lowers
   the sum of (e + J x)^T Omega (e + J x) by exactly 2 b . x - x^T H x.
   */
  lemma {:induction false} GainIsCostDecrease(n: nat, ms: seq<Measurement>, layout: seq<nat>, x: Vector)
    requires forall e :: 0 <= e < |ms| ==> ValidMeasurement(ms[e])
    ensures TotalCost(n, ms, layout, NoIncrement()) - TotalCost(n, ms, layout, x)
         == Gain(n, Hessian(ms, layout), Gradient(ms, layout), x)
    decreases |ms|
  {
    if ms == [] {
      EmptyForm(n, Hessian(ms, layout), x);
      EmptyDot(n, Gradient(ms, layout), x);
    } else {
      var front, m := ms[..|ms| - 1], ms[|ms| - 1];
      assert ms == front + [m];
      hide Hessian, EdgeHessian, Gradient, EdgeGradient, Gain, PredictedCost, ValidMeasurement, NoIncrement;
      GainIsCostDecrease(n, front, layout, x);
      forall p, q ensures Hessian(ms, layout)(p, q) == Hessian(front, layout)(p, q) + EdgeHessian(m, layout)(p, q) {
        HessianStep(front, layout, m, p, q);
      }
      forall p ensures Gradient(ms, layout)(p) == Gradient(front, layout)(p) + EdgeGradient(m, layout)(p) {
        GradientStep(front, layout, m, p);
      }
      GainAdds(n, Hessian(ms, layout), Hessian(front, layout), EdgeHessian(m, layout),
               Gradient(ms, layout), Gradient(front, layout), EdgeGradient(m, layout), x);
      EdgeGain(n, m, layout, x);
    }
  }

  lemma EmptyDot(n: nat, g: Vector, x: Vector)
    requires forall p :: g(p) == 0.0
    ensures Dot(n, g, x) == 0.0
  {
    forall p ensures Products(g, x)(p) == 0.0 {
      ZeroLeft(g(p), x(p));
    }
    DotIsSum(n, g, x);
    SumZero(0, n, Products(g, x));
  }
}
