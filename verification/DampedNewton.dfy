/** Solutions of damped normal equations (H + lambda I) x = b, and what the quadratic model predicts for them. */
module DampedNewton {
  import opened Sums
  import opened LinearAlgebra
  import opened QuadraticModel

  ghost function Damped(H: Matrix, damp: real): Matrix {
    (i, j) => H(i, j) + damp * Delta(i, j)
  }

  ghost predicate Solves(n: nat, A: Matrix, x: Vector, b: Vector) {
    forall i :: 0 <= i < n ==> MatVec(n, A, x)(i) == b(i)
  }

  ghost function DiagonalTerms(damp: real, i: int, x: Vector): Vector {
    k => if k == i then damp * x(k) else 0.0
  }

  lemma DampedTerm(H: Matrix, damp: real, x: Vector, i: int, k: int)
    ensures Terms(Damped(H, damp), i, x)(k) == Terms(H, i, x)(k) + DiagonalTerms(damp, i, x)(k)
  {
    SplitProduct(H(i, k), damp * Delta(i, k), x(k));
    if i != k {
      assert damp * Delta(i, k) == 0.0;
    }
  }

  lemma DiagonalSum(n: nat, damp: real, x: Vector, i: int)
    requires 0 <= i < n
    ensures Sum(0, n, DiagonalTerms(damp, i, x)) == Scale(damp, x)(i)
  {
    SumSingle(0, n, i, DiagonalTerms(damp, i, x));
  }

  lemma DampedMatVec(n: nat, H: Matrix, damp: real, x: Vector, i: int)
    requires 0 <= i < n
    ensures MatVec(n, Damped(H, damp), x)(i) == Plus(MatVec(n, H, x), Scale(damp, x))(i)
  {
    var all := Terms(Damped(H, damp), i, x);
    forall k ensures all(k) == Terms(H, i, x)(k) + DiagonalTerms(damp, i, x)(k) {
      DampedTerm(H, damp, x, i, k);
    }
    SumAdd(0, n, Terms(H, i, x), DiagonalTerms(damp, i, x), all);
    DiagonalSum(n, damp, x, i);
  }

  lemma SplitProduct(a: real, b: real, c: real)
    ensures (a + b) * c == a * c + b * c
  {
  }

  lemma DampedForm(n: nat, H: Matrix, damp: real, x: Vector)
    ensures Form(n, Damped(H, damp), x, x) == Form(n, H, x, x) + damp * SquaredNorm(n, x)
  {
    forall i | 0 <= i < n
      ensures MatVec(n, Damped(H, damp), x)(i) == Plus(MatVec(n, H, x), Scale(damp, x))(i)
    {
      DampedMatVec(n, H, damp, x, i);
    }
    DotCong(n, x, x, MatVec(n, Damped(H, damp), x), Plus(MatVec(n, H, x), Scale(damp, x)));
    DotLinearRight(n, damp, MatVec(n, H, x), x, x);
  }

  lemma SolutionDot(n: nat, A: Matrix, x: Vector, b: Vector)
    requires Solves(n, A, x, b)
    ensures Dot(n, b, x) == Form(n, A, x, x)
  {
    DotCong(n, x, x, MatVec(n, A, x), b);
    DotSymmetric(n, b, x);
  }

  lemma SemidefiniteAt(n: nat, H: Matrix, x: Vector)
    requires PositiveSemidefinite(n, H)
    ensures Form(n, H, x, x) >= 0.0
  {
  }

  /** A damped Newton step never has a negative predicted gain. */
  lemma NewtonGain(n: nat, H: Matrix, damp: real, x: Vector, b: Vector)
    requires PositiveSemidefinite(n, H) && damp >= 0.0 && Solves(n, Damped(H, damp), x, b)
    ensures Gain(n, H, b, x) == Form(n, H, x, x) + 2.0 * (damp * SquaredNorm(n, x))
    ensures Gain(n, H, b, x) >= 0.0
  {
    hide Dot, Form, SquaredNorm, PositiveSemidefinite;
    assert Form(n, H, x, x) >= 0.0 by {
      SemidefiniteAt(n, H, x);
    }
    SolutionDot(n, Damped(H, damp), x, b);
    DampedForm(n, H, damp, x);
    MulNonNegative(damp, SquaredNorm(n, x));
  }

  /** The same solution makes the denominator of Levenberg's gain ratio non-negative. */
  lemma LevenbergScale(n: nat, H: Matrix, damp: real, x: Vector, b: Vector)
    requires PositiveSemidefinite(n, H) && damp >= 0.0 && Solves(n, Damped(H, damp), x, b)
    ensures Dot(n, x, Plus(b, Scale(damp, x))) >= 0.0
  {
    hide Form, PositiveSemidefinite;
    assert Form(n, H, x, x) >= 0.0 by {
      SemidefiniteAt(n, H, x);
    }
    DotLinearRight(n, damp, b, x, x);
    SolutionDot(n, Damped(H, damp), x, b);
    DotSymmetric(n, x, b);
    DampedForm(n, H, damp, x);
    MulNonNegative(damp, SquaredNorm(n, x));
  }

  /** A step along the gradient, at most as long as the Cauchy step alpha b. */
  lemma SteepestGain(n: nat, H: Matrix, b: Vector, alpha: real, t: real)
    requires alpha * Form(n, H, b, b) == SquaredNorm(n, b) && alpha >= 0.0 && 0.0 <= t <= 1.0
    ensures Gain(n, H, b, Scale(t, Scale(alpha, b))) == (2.0 - t) * (t * (alpha * SquaredNorm(n, b)))
    ensures Gain(n, H, b, Scale(t, Scale(alpha, b))) >= 0.0
  {
    hide Gain, AlongGradient, Form, SquaredNorm;
    var bb := SquaredNorm(n, b);
    ScaleTwice(t, alpha, b);
    GainCong(n, H, b, Scale(t, Scale(alpha, b)), Scale(t * alpha, b));
    GainScale(n, H, b, t * alpha, bb, Form(n, H, b, b));
    CauchyArithmetic(t, alpha, t * alpha, bb, Form(n, H, b, b));
    MulNonNegative(alpha, bb);
    MulNonNegative(t, alpha * bb);
    MulNonNegative(2.0 - t, t * (alpha * bb));
  }

  lemma GainScale(n: nat, H: Matrix, b: Vector, s: real, bb: real, q: real)
    requires bb == SquaredNorm(n, b) && q == Form(n, H, b, b)
    ensures Gain(n, H, b, Scale(s, b)) == AlongGradient(s, bb, q)
  {
    hide Dot, Form;
    DotScale(n, s, b, b);
    FormScale(n, H, s, b);
  }

  /** The gain of the step s b. */
  ghost function AlongGradient(s: real, bb: real, q: real): real {
    2.0 * (s * bb) - s * (s * q)
  }

  lemma ScaleTwice(t: real, alpha: real, b: Vector)
    ensures forall k :: Scale(t, Scale(alpha, b))(k) == Scale(t * alpha, b)(k)
  {
    forall k ensures Scale(t, Scale(alpha, b))(k) == Scale(t * alpha, b)(k) {
      Reassociate(t, alpha, b(k));
    }
  }

  lemma Reassociate(a: real, b: real, c: real)
    ensures a * (b * c) == (a * b) * c
  {
  }

  lemma MatVecScale(n: nat, H: Matrix, s: real, b: Vector, i: int)
    ensures MatVec(n, H, Scale(s, b))(i) == Scale(s, MatVec(n, H, b))(i)
  {
    forall k ensures Terms(H, i, Scale(s, b))(k) == s * Terms(H, i, b)(k) {
      ScaledTerm(H(i, k), s, b(k));
    }
    SumScale(0, n, s, Terms(H, i, b), Terms(H, i, Scale(s, b)));
  }

  lemma ScaledTerm(a: real, s: real, x: real)
    ensures a * (s * x) == s * (a * x)
  {
  }

  lemma FormScale(n: nat, H: Matrix, s: real, b: Vector)
    ensures Form(n, H, Scale(s, b), Scale(s, b)) == s * (s * Form(n, H, b, b))
  {
    var Hb := MatVec(n, H, b);
    calc {
      Form(n, H, Scale(s, b), Scale(s, b));
      {
        forall i ensures MatVec(n, H, Scale(s, b))(i) == Scale(s, Hb)(i) { MatVecScale(n, H, s, b, i); }
        DotCong(n, Scale(s, b), Scale(s, b), MatVec(n, H, Scale(s, b)), Scale(s, Hb));
      }
      Dot(n, Scale(s, b), Scale(s, Hb));
      { DotScale(n, s, b, Scale(s, Hb)); }
      s * Dot(n, b, Scale(s, Hb));
      { DotScale(n, s, Hb, b); }
      s * (s * Dot(n, b, Hb));
    }
  }

  lemma CauchyArithmetic(t: real, alpha: real, s: real, bb: real, q: real)
    requires alpha * q == bb && s == t * alpha
    ensures AlongGradient(s, bb, q) == (2.0 - t) * (t * (alpha * bb))
  {
    var w := t * (alpha * bb);
    assert s * bb == w by {
      Reassociate(t, alpha, bb);
    }
    assert s * (s * q) == t * w by {
      Reassociate(t, alpha, q);
      ScaledTerm(s, t, bb);
    }
    SplitProduct(2.0, -t, w);
  }
}
