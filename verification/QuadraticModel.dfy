/** Inner products, quadratic forms and the quadratic model 2 b.h - h^T H h of the cost decrease. */
module QuadraticModel {
  import opened Sums
  import opened LinearAlgebra

  function Plus(x: Vector, y: Vector): Vector {
    i => x(i) + y(i)
  }

  function Minus(x: Vector, y: Vector): Vector {
    i => x(i) - y(i)
  }

  function Scale(c: real, x: Vector): Vector {
    i => c * x(i)
  }

  /** Values along x + c y of a linear and of a quadratic function. */
  ghost function Line(f0: real, c: real, f1: real): real {
    f0 + c * f1
  }

  ghost function Quadratic(f0: real, c: real, f1: real, f2: real): real {
    f0 + 2.0 * c * f1 + c * c * f2
  }

  function SquaredNorm(n: nat, x: Vector): (r: real)
    ensures r >= 0.0
  {
    SumNonNegative(0, n, k => x(k) * x(k));
    Dot(n, x, x)
  }

  ghost function Products(x: Vector, y: Vector): Vector {
    k => x(k) * y(k)
  }

  lemma DotIsSum(n: nat, x: Vector, y: Vector)
    ensures Dot(n, x, y) == Sum(0, n, Products(x, y))
  {
    SumCong(0, n, k => x(k) * y(k), Products(x, y));
  }

  lemma DotCong(n: nat, x: Vector, x': Vector, y: Vector, y': Vector)
    requires forall k :: 0 <= k < n ==> x(k) == x'(k) && y(k) == y'(k)
    ensures Dot(n, x, y) == Dot(n, x', y')
  {
    SumCong(0, n, k => x(k) * y(k), k => x'(k) * y'(k));
  }

  lemma DotSymmetric(n: nat, x: Vector, y: Vector)
    ensures Dot(n, x, y) == Dot(n, y, x)
  {
    SumCong(0, n, k => x(k) * y(k), k => y(k) * x(k));
  }

  lemma LinearTerm(a: real, x: real, c: real, y: real)
    ensures a * (x + c * y) == a * x + c * (a * y)
  {
  }

  /** A sum of values along a line. */
  lemma SumLine(n: nat, f: Vector, c: real, g: Vector, h: Vector)
    requires forall k :: h(k) == Line(f(k), c, g(k))
    ensures Sum(0, n, h) == Line(Sum(0, n, f), c, Sum(0, n, g))
  {
    SumScale(0, n, c, g, Scale(c, g));
    SumAdd(0, n, f, Scale(c, g), h);
  }

  lemma TermLinear(a: real, c: real, x: Vector, y: Vector, k: int)
    ensures a * Plus(x, Scale(c, y))(k) == Line(a * x(k), c, a * y(k))
  {
    LinearTerm(a, x(k), c, y(k));
  }

  /** Linearity in the first argument. */
  lemma DotLinear(n: nat, c: real, x: Vector, y: Vector, z: Vector)
    ensures Dot(n, Plus(x, Scale(c, y)), z) == Line(Dot(n, x, z), c, Dot(n, y, z))
  {
    hide Plus, Scale;
    var w := Plus(x, Scale(c, y));
    forall k ensures Products(w, z)(k) == Line(Products(x, z)(k), c, Products(y, z)(k)) {
      TermLinear(z(k), c, x, y, k);
    }
    SumLine(n, Products(x, z), c, Products(y, z), Products(w, z));
    DotIsSum(n, w, z);
    DotIsSum(n, x, z);
    DotIsSum(n, y, z);
  }

  lemma DotLinearRight(n: nat, c: real, x: Vector, y: Vector, z: Vector)
    ensures Dot(n, z, Plus(x, Scale(c, y))) == Line(Dot(n, z, x), c, Dot(n, z, y))
  {
    DotSymmetric(n, z, Plus(x, Scale(c, y)));
    DotLinear(n, c, x, y, z);
    DotSymmetric(n, z, x);
    DotSymmetric(n, z, y);
  }

  lemma DotScale(n: nat, c: real, x: Vector, y: Vector)
    ensures Dot(n, Scale(c, x), y) == c * Dot(n, x, y)
    ensures Dot(n, y, Scale(c, x)) == c * Dot(n, y, x)
  {
    var terms := Products(Scale(c, x), y);
    forall k ensures terms(k) == c * Products(x, y)(k) {
      LinearTerm(y(k), 0.0, c, x(k));
    }
    SumScale(0, n, c, Products(x, y), terms);
    DotIsSum(n, Scale(c, x), y);
    DotIsSum(n, x, y);
    DotSymmetric(n, y, Scale(c, x));
    DotSymmetric(n, y, x);
  }

  /** |x + c y|^2 expanded. */
  lemma SquaredNormExpands(n: nat, c: real, x: Vector, y: Vector)
    ensures SquaredNorm(n, Plus(x, Scale(c, y)))
         == Quadratic(SquaredNorm(n, x), c, Dot(n, x, y), SquaredNorm(n, y))
  {
    var z := Plus(x, Scale(c, y));
    DotLinear(n, c, x, y, z);
    DotLinearRight(n, c, x, y, x);
    DotLinearRight(n, c, x, y, y);
    DotSymmetric(n, x, y);
    LineOfLines(c, Dot(n, x, x), Dot(n, x, y), Dot(n, y, y));
  }

  lemma LineOfLines(c: real, f0: real, f1: real, f2: real)
    ensures Line(Line(f0, c, f1), c, Line(f1, c, f2)) == Quadratic(f0, c, f1, f2)
  {
  }

  // ----- Symmetric matrices as quadratic forms

  /** x^T H y */
  ghost function Form(n: nat, H: Matrix, x: Vector, y: Vector): real {
    Dot(n, x, MatVec(n, H, y))
  }

  ghost predicate PositiveSemidefinite(n: nat, H: Matrix) {
    forall x: Vector :: Form(n, H, x, x) >= 0.0
  }

  ghost function Weighted(H: Matrix, x: Vector, y: Vector): Matrix {
    (i, j) => x(i) * H(i, j) * y(j)
  }

  ghost function Row(A: Matrix, i: int): Vector {
    j => A(i, j)
  }

  ghost function Column(A: Matrix, j: int): Vector {
    i => A(i, j)
  }

  lemma FormRow(n: nat, H: Matrix, x: Vector, y: Vector, i: int)
    ensures x(i) * MatVec(n, H, y)(i) == Sum(0, n, Row(Weighted(H, x, y), i))
  {
    forall j ensures Row(Weighted(H, x, y), i)(j) == x(i) * Terms(H, i, y)(j) {
      assert Weighted(H, x, y)(i, j) == x(i) * (H(i, j) * y(j));
    }
    SumScale(0, n, x(i), Terms(H, i, y), Row(Weighted(H, x, y), i));
  }

  lemma FormColumn(n: nat, H: Matrix, x: Vector, y: Vector, j: int)
    requires SymmetricMatrix(n, H) && 0 <= j < n
    ensures y(j) * MatVec(n, H, x)(j) == Sum(0, n, Column(Weighted(H, x, y), j))
  {
    forall i | 0 <= i < n ensures Column(Weighted(H, x, y), j)(i) == y(j) * Terms(H, j, x)(i) {
      assert H(i, j) == H(j, i);
      assert Weighted(H, x, y)(i, j) == y(j) * (H(j, i) * x(i));
    }
    SumScale(0, n, y(j), Terms(H, j, x), Column(Weighted(H, x, y), j));
  }

  lemma FormSymmetric(n: nat, H: Matrix, x: Vector, y: Vector)
    requires SymmetricMatrix(n, H)
    ensures Form(n, H, x, y) == Form(n, H, y, x)
  {
    var rows, columns := Products(x, MatVec(n, H, y)), Products(y, MatVec(n, H, x));
    forall i | 0 <= i < n ensures rows(i) == Sum(0, n, j => Weighted(H, x, y)(i, j)) {
      FormRow(n, H, x, y, i);
      SumCong(0, n, Row(Weighted(H, x, y), i), j => Weighted(H, x, y)(i, j));
    }
    forall j | 0 <= j < n ensures columns(j) == Sum(0, n, i => Weighted(H, x, y)(i, j)) {
      FormColumn(n, H, x, y, j);
      SumCong(0, n, Column(Weighted(H, x, y), j), i => Weighted(H, x, y)(i, j));
    }
    SumSwap(0, n, 0, n, Weighted(H, x, y), rows, columns);
    DotIsSum(n, x, MatVec(n, H, y));
    DotIsSum(n, y, MatVec(n, H, x));
  }

  lemma MatVecLinear(n: nat, H: Matrix, c: real, x: Vector, y: Vector, i: int)
    ensures MatVec(n, H, Plus(x, Scale(c, y)))(i) == MatVec(n, H, x)(i) + c * MatVec(n, H, y)(i)
  {
    RowLinear(n, H, c, x, y, i);
  }

  lemma RowLinear(n: nat, H: Matrix, c: real, x: Vector, y: Vector, i: int)
    ensures MatVec(n, H, Plus(x, Scale(c, y)))(i) == Line(MatVec(n, H, x)(i), c, MatVec(n, H, y)(i))
  {
    hide Plus, Scale;
    var w := Plus(x, Scale(c, y));
    forall k ensures Terms(H, i, w)(k) == Line(Terms(H, i, x)(k), c, Terms(H, i, y)(k)) {
      TermLinear(H(i, k), c, x, y, k);
    }
    SumLine(n, Terms(H, i, x), c, Terms(H, i, y), Terms(H, i, w));
  }

  lemma FormLinearRight(n: nat, H: Matrix, c: real, x: Vector, y: Vector, z: Vector)
    ensures Form(n, H, z, Plus(x, Scale(c, y))) == Line(Form(n, H, z, x), c, Form(n, H, z, y))
  {
    var Hx, Hy := MatVec(n, H, x), MatVec(n, H, y);
    forall i ensures MatVec(n, H, Plus(x, Scale(c, y)))(i) == Plus(Hx, Scale(c, Hy))(i) {
      MatVecLinear(n, H, c, x, y, i);
    }
    DotCong(n, z, z, MatVec(n, H, Plus(x, Scale(c, y))), Plus(Hx, Scale(c, Hy)));
    DotLinearRight(n, c, Hx, Hy, z);
  }

  lemma FormExpands(n: nat, H: Matrix, c: real, x: Vector, y: Vector)
    requires SymmetricMatrix(n, H)
    ensures var z := Plus(x, Scale(c, y));
            Form(n, H, z, z) == Quadratic(Form(n, H, x, x), c, Form(n, H, x, y), Form(n, H, y, y))
  {
    var z := Plus(x, Scale(c, y));
    FormLinearRight(n, H, c, x, y, z);
    assert Form(n, H, z, x) == Line(Form(n, H, x, x), c, Form(n, H, x, y)) by {
      FormSymmetric(n, H, z, x);
      FormLinearRight(n, H, c, x, y, x);
    }
    assert Form(n, H, z, y) == Line(Form(n, H, x, y), c, Form(n, H, y, y)) by {
      FormSymmetric(n, H, z, y);
      FormLinearRight(n, H, c, x, y, y);
      FormSymmetric(n, H, x, y);
    }
    LineOfLines(c, Form(n, H, x, x), Form(n, H, x, y), Form(n, H, y, y));
  }

  /** The decrease of the cost that the quadratic model predicts for the step h. */
  ghost function Gain(n: nat, H: Matrix, b: Vector, h: Vector): real {
    2.0 * Dot(n, b, h) - Form(n, H, h, h)
  }

  /** The model along a segment, from x towards x + y. */
  lemma GainExpands(n: nat, H: Matrix, b: Vector, c: real, x: Vector, y: Vector)
    requires SymmetricMatrix(n, H)
    ensures Gain(n, H, b, Plus(x, Scale(c, y)))
         == ModelAt(Gain(n, H, b, x), c, Slope(n, H, b, x, y), Form(n, H, y, y))
  {
    hide Line, Quadratic, ModelAt, Dot, Form;
    FormExpands(n, H, c, x, y);
    DotLinearRight(n, c, x, y, b);
    var z := Plus(x, Scale(c, y));
    GainArithmetic(c, Dot(n, b, z), Dot(n, b, x), Dot(n, b, y),
                   Form(n, H, z, z), Form(n, H, x, x), Form(n, H, x, y), Form(n, H, y, y));
  }

  lemma GainArithmetic(c: real, d: real, d0: real, d1: real, f: real, f0: real, f1: real, f2: real)
    requires d == Line(d0, c, d1) && f == Quadratic(f0, c, f1, f2)
    ensures 2.0 * d - f == ModelAt(2.0 * d0 - f0, c, d1 - f1, f2)
  {
    Distribute(c, d1, f1);
  }

  ghost function ModelAt(start: real, c: real, slope: real, curvature: real): real {
    start + 2.0 * c * slope - c * c * curvature
  }

  /** Half the directional derivative of the gain at x in the direction y. */
  ghost function Slope(n: nat, H: Matrix, b: Vector, x: Vector, y: Vector): real {
    Dot(n, b, y) - Form(n, H, x, y)
  }

  /** The model is concave: between two steps it predicts at least the interpolated gain. */
  lemma GainConcave(n: nat, H: Matrix, b: Vector, beta: real, x: Vector, g: Vector)
    requires SymmetricMatrix(n, H) && PositiveSemidefinite(n, H) && 0.0 <= beta <= 1.0
    ensures Gain(n, H, b, Plus(x, Scale(beta, Minus(g, x)))) >= (1.0 - beta) * Gain(n, H, b, x) + beta * Gain(n, H, b, g)
  {
    hide Gain, Slope, ModelAt;
    var d := Minus(g, x);
    var gx, gg, mid := Gain(n, H, b, x), Gain(n, H, b, g), Gain(n, H, b, Plus(x, Scale(beta, d)));
    var p, q := Slope(n, H, b, x, d), Form(n, H, d, d);
    assert gg == ModelAt(gx, 1.0, p, q) by {
      GainExpands(n, H, b, 1.0, x, d);
      GainCong(n, H, b, g, Plus(x, Scale(1.0, d)));
    }
    assert mid == ModelAt(gx, beta, p, q) by {
      GainExpands(n, H, b, beta, x, d);
    }
    SegmentArithmetic(beta, gx, gg, mid, p, q);
  }

  lemma SegmentArithmetic(beta: real, gx: real, gg: real, mid: real, p: real, q: real)
    requires 0.0 <= beta <= 1.0 && q >= 0.0
    requires gg == ModelAt(gx, 1.0, p, q) && mid == ModelAt(gx, beta, p, q)
    ensures mid >= (1.0 - beta) * gx + beta * gg
  {
    var w := beta - beta * beta;
    assert w >= 0.0 by {
      MulNonNegative(beta, 1.0 - beta);
      Distribute(beta, 1.0, beta);
    }
    assert w * q >= 0.0 by {
      MulNonNegative(w, q);
    }
    assert mid == gx + beta * (2.0 * p) - (beta * beta) * q;
    assert w * q == beta * q - (beta * beta) * q by {
      Distribute(q, beta, beta * beta);
    }
    assert beta * gg == beta * gx + beta * (2.0 * p) - beta * q by {
      Distribute(beta, gx + 2.0 * p, q);
    }
    Distribute(gx, 1.0, beta);
  }

  lemma MulNonNegative(a: real, b: real)
    requires a >= 0.0 && b >= 0.0
    ensures a * b >= 0.0
  {
  }

  lemma SquareNonNegative(x: real)
    ensures x * x >= 0.0
  {
  }

  lemma Distribute(a: real, b: real, c: real)
    ensures a * (b - c) == a * b - a * c
  {
  }

  lemma GainCong(n: nat, H: Matrix, b: Vector, x: Vector, y: Vector)
    requires forall k :: 0 <= k < n ==> x(k) == y(k)
    ensures Gain(n, H, b, x) == Gain(n, H, b, y)
  {
    DotCong(n, b, b, x, y);
    forall i ensures MatVec(n, H, x)(i) == MatVec(n, H, y)(i) {
      SumCong(0, n, Terms(H, i, x), Terms(H, i, y));
    }
    DotCong(n, x, y, MatVec(n, H, x), MatVec(n, H, y));
  }
}
