/** The geometry of the dogleg step and the gain that the quadratic model predicts for it. */
module DoglegStep {
  import opened LinearAlgebra
  import opened QuadraticModel
  import opened DampedNewton
  import opened Options

  datatype StepKind = Undefined | SteepestDescent | GaussNewton | Dogleg

  ghost predicate IsSqrt(sqrt: real -> real) {
    forall x :: x >= 0.0 ==> sqrt(x) >= 0.0 && sqrt(x) * sqrt(x) == x
  }

  // ----- The factor beta as a root of a quadratic

  /** c is hsd . (hgn - hsd), m its direction's squared length, g is delta^2 - |hsd|^2, root the square root of c^2 + m g. */
  ghost function BetaFrom(c: real, m: real, g: real, root: real): real
    requires m > 0.0 && (c > 0.0 ==> root >= 0.0)
  {
    if c <= 0.0 then (-c + root) / m else g / (c + root)
  }

  /** Zero exactly when hsd + beta (hgn - hsd) lies on the boundary of the trust region. */
  ghost function Excess(c: real, m: real, g: real, beta: real): real {
    m * (beta * beta) + 2.0 * (c * beta) - g
  }

  lemma MulPositive(a: real, b: real)
    requires a > 0.0 && b > 0.0
    ensures a * b > 0.0
  {
  }

  lemma SquareLess(a: real, b: real)
    requires 0.0 <= a < b
    ensures a * a < b * b
  {
    MulPositive(b - a, b + a);
    Distribute(b + a, b, a);
  }

  /** Among non-negative numbers squares decide the order. */
  lemma RootAtMost(a: real, b: real)
    requires 0.0 <= b && a * a <= b * b
    ensures a <= b
  {
    if a > b {
      SquareLess(b, a);
    }
  }

  lemma RootBounds(c: real, x: real, root: real)
    requires root >= 0.0 && x >= 0.0 && root * root == c * c + x
    ensures root >= c && root >= -c
  {
    RootAtMost(c, root);
    assert (-c) * (-c) == c * c;
    RootAtMost(-c, root);
  }

  /** Both formulas solve m beta + c == root. */
  lemma BetaEquation(c: real, m: real, g: real, root: real)
    requires m > 0.0 && g >= 0.0 && root >= 0.0 && root * root == c * c + m * g
    ensures m * BetaFrom(c, m, g, root) + c == root
    ensures BetaFrom(c, m, g, root) >= 0.0
  {
    MulNonNegative(m, g);
    RootBounds(c, m * g, root);
    var beta := BetaFrom(c, m, g, root);
    if c <= 0.0 {
      assert beta == (root - c) / m;
      DivideNonNegative(root - c, m);
    } else {
      var s := c + root;
      DivideNonNegative(g, s);
      assert beta * s == g;
      assert (m * beta) * s == m * g == (root - c) * s by {
        assert (m * beta) * s == m * (beta * s);
        Distribute(s, root, c);
        assert s * root == c * root + root * root;
        assert s * c == c * c + root * c;
      }
      CancelFactor(m * beta, root - c, s);
    }
  }

  lemma DivideNonNegative(a: real, b: real)
    requires a >= 0.0 && b > 0.0
    ensures a / b >= 0.0 && (a / b) * b == a
  {
  }

  lemma CancelFactor(a: real, b: real, s: real)
    requires s != 0.0 && a * s == b * s
    ensures a == b
  {
    assert (a - b) * s == 0.0;
  }

  lemma BetaIsRoot(c: real, m: real, g: real, root: real)
    requires m > 0.0 && g >= 0.0 && root >= 0.0 && root * root == c * c + m * g
    ensures Excess(c, m, g, BetaFrom(c, m, g, root)) == 0.0
  {
    BetaEquation(c, m, g, root);
    var beta := BetaFrom(c, m, g, root);
    var mb := m * beta;
    assert (mb + c) * (mb + c) == c * c + m * g;
    assert mb * mb + 2.0 * (mb * c) == m * g by {
      assert (mb + c) * (mb + c) == mb * mb + 2.0 * (mb * c) + c * c;
    }
    assert m * Excess(c, m, g, beta) == mb * mb + 2.0 * (mb * c) - m * g by {
      ExcessTimesM(c, m, g, beta);
    }
    CancelFactor(Excess(c, m, g, beta), 0.0, m);
  }

  lemma ExcessTimesM(c: real, m: real, g: real, beta: real)
    ensures m * Excess(c, m, g, beta) == (m * beta) * (m * beta) + 2.0 * ((m * beta) * c) - m * g
  {
    var a, b := m * (beta * beta), c * beta;
    Distribute(m, a + 2.0 * b, g);
    assert m * a == (m * beta) * (m * beta);
    assert m * b == (m * beta) * c;
    assert m * (a + 2.0 * b) == m * a + 2.0 * (m * b);
  }

  lemma ExcessGrows(c: real, m: real, g: real, beta: real)
    requires m > 0.0 && g >= 0.0 && beta > 1.0 && Excess(c, m, g, 1.0) >= 0.0
    ensures Excess(c, m, g, beta) > 0.0
  {
    var e := m + 2.0 * c - g;
    MulNonNegative(beta, e);
    MulPositive(m, beta);
    MulPositive(beta - 1.0, m * beta + g);
    assert (beta - 1.0) * (m * beta + g) == Excess(c, m, g, beta) - beta * e by {
      Distribute(m * beta + g, beta, 1.0);
      assert beta * (m * beta + g) == m * (beta * beta) + beta * g;
      assert beta * e == m * beta + 2.0 * (c * beta) - beta * g;
    }
  }

  lemma OnlyRoot(c: real, m: real, g: real, root: real, beta: real)
    requires m > 0.0 && g >= 0.0 && root >= 0.0 && root * root == c * c + m * g
    requires Excess(c, m, g, 1.0) == 0.0 && m * beta + c == root
    ensures beta == 1.0
  {
    assert g == m + 2.0 * c;
    var s := m + c;
    assert s * s == root * root by {
      SquareOfSum(m, c);
      assert m * g == m * m + 2.0 * (m * c);
    }
    RootAtMost(s, root);
    RootAtMost(root, s);
    assert m * beta == m * 1.0;
    CancelFactor(beta, 1.0, m);
  }

  lemma SquareOfSum(a: real, b: real)
    ensures (a + b) * (a + b) == a * a + 2.0 * (a * b) + b * b
  {
  }

  lemma PositiveBeta(c: real, m: real, g: real, root: real, beta: real)
    requires m > 0.0 && g >= 0.0 && root >= 0.0 && root * root == c * c + m * g
    requires m * beta + c == root && beta >= 0.0
    ensures beta > 0.0 <==> g > 0.0 || c < 0.0
  {
    if beta == 0.0 {
      assert c == root;
      assert m * g == 0.0;
    }
    if g == 0.0 && c >= 0.0 {
      assert root * root == c * c;
      RootAtMost(root, c);
      RootAtMost(c, root);
      assert m * beta == 0.0;
    }
  }

  /**
   beta stays within [0, 1] when the far end is outside (or on) the region, it is below 1 exactly
   when that end is strictly outside, and it is positive exactly when hsd is strictly inside or the
   way to hgn first leads inwards.
   */
  lemma BetaRange(c: real, m: real, g: real, root: real)
    requires m > 0.0 && g >= 0.0 && root >= 0.0 && root * root == c * c + m * g
    requires Excess(c, m, g, 1.0) >= 0.0
    ensures 0.0 <= BetaFrom(c, m, g, root) <= 1.0
    ensures BetaFrom(c, m, g, root) < 1.0 <==> Excess(c, m, g, 1.0) > 0.0
    ensures BetaFrom(c, m, g, root) > 0.0 <==> g > 0.0 || c < 0.0
  {
    BetaEquation(c, m, g, root);
    BetaIsRoot(c, m, g, root);
    var beta := BetaFrom(c, m, g, root);
    if beta > 1.0 {
      ExcessGrows(c, m, g, beta);
    }
    PositiveBeta(c, m, g, root, beta);
    if Excess(c, m, g, 1.0) == 0.0 {
      OnlyRoot(c, m, g, root, beta);
    }
  }

  // ----- The three kinds of step, in any dimension

  /** The step hsd + beta (hgn - hsd) ends exactly on the boundary of the trust region. */
  lemma DoglegOnBoundary(n: nat, hsd: Vector, hgn: Vector, delta: real, root: real)
    requires SquaredNorm(n, Minus(hgn, hsd)) > 0.0
    requires SquaredNorm(n, hsd) <= delta * delta <= SquaredNorm(n, hgn)
    requires root >= 0.0 && root * root == Discriminant(n, hsd, hgn, delta)
    ensures 0.0 <= BetaOf(n, hsd, hgn, delta, root) <= 1.0
    ensures SquaredNorm(n, Plus(hsd, Scale(BetaOf(n, hsd, hgn, delta, root), Minus(hgn, hsd)))) == delta * delta
    ensures BetaOf(n, hsd, hgn, delta, root) < 1.0 <==> delta * delta < SquaredNorm(n, hgn)
    ensures BetaOf(n, hsd, hgn, delta, root) > 0.0
       <==> SquaredNorm(n, hsd) < delta * delta || Dot(n, hsd, Minus(hgn, hsd)) < 0.0
  {
    var d := Minus(hgn, hsd);
    hide Dot, BetaFrom, Excess, Quadratic;
    var c, m, g := Dot(n, hsd, d), SquaredNorm(n, d), delta * delta - SquaredNorm(n, hsd);
    var beta := BetaOf(n, hsd, hgn, delta, root);
    assert Excess(c, m, g, 1.0) == SquaredNorm(n, hgn) - delta * delta by {
      SquaredNormExpands(n, 1.0, hsd, d);
      var end := Plus(hsd, Scale(1.0, d));
      assert forall k :: end(k) == hgn(k);
      DotCong(n, end, hgn, end, hgn);
      ExcessAtEnd(SquaredNorm(n, hsd), c, m, g);
      assert SquaredNorm(n, end) == SquaredNorm(n, hgn);
    }
    BetaRange(c, m, g, root);
    BetaIsRoot(c, m, g, root);
    SquaredNormExpands(n, beta, hsd, d);
    BoundaryArithmetic(SquaredNorm(n, hsd), beta, c, m, g);
  }

  lemma ExcessAtEnd(a: real, c: real, m: real, g: real)
    ensures Excess(c, m, g, 1.0) == Quadratic(a, 1.0, c, m) - (a + g)
  {
  }

  lemma BoundaryArithmetic(a: real, beta: real, c: real, m: real, g: real)
    requires Excess(c, m, g, beta) == 0.0
    ensures Quadratic(a, beta, c, m) == a + g
  {
  }

  /** c^2 + m g, the argument of the square root. */
  ghost function Discriminant(n: nat, hsd: Vector, hgn: Vector, delta: real): real {
    var d := Minus(hgn, hsd);
    Dot(n, hsd, d) * Dot(n, hsd, d) + SquaredNorm(n, d) * (delta * delta - SquaredNorm(n, hsd))
  }

  ghost function BetaOf(n: nat, hsd: Vector, hgn: Vector, delta: real, root: real): real
    requires SquaredNorm(n, Minus(hgn, hsd)) > 0.0 && root >= 0.0
  {
    var d := Minus(hgn, hsd);
    BetaFrom(Dot(n, hsd, d), SquaredNorm(n, d), delta * delta - SquaredNorm(n, hsd), root)
  }

  lemma DiscriminantNonNegative(n: nat, hsd: Vector, hgn: Vector, delta: real)
    requires SquaredNorm(n, hsd) <= delta * delta
    ensures Discriminant(n, hsd, hgn, delta) >= 0.0
  {
    var d := Minus(hgn, hsd);
    MulNonNegative(SquaredNorm(n, d), delta * delta - SquaredNorm(n, hsd));
    SquareNonNegative(Dot(n, hsd, d));
  }

  /** What the chosen step is, and how long it is. There is no cauchy step hsd when b^T H b is zero. */
  ghost predicate StepOk(n: nat, cauchy: Option<Vector>, hgn: Vector, delta: real, kind: StepKind, hdl: Vector) {
    match kind
    case GaussNewton => SquaredNorm(n, hgn) < delta * delta && hdl == hgn
    case SteepestDescent =>
      && cauchy.Some? && SquaredNorm(n, hgn) >= delta * delta
      && SquaredNorm(n, cauchy.value) > delta * delta && SquaredNorm(n, hdl) == delta * delta
      && exists t :: 0.0 <= t <= 1.0 && hdl == Scale(t, cauchy.value)
    case Dogleg =>
      && cauchy.Some?
      && SquaredNorm(n, cauchy.value) <= delta * delta <= SquaredNorm(n, hgn) && SquaredNorm(n, hdl) == delta * delta
      && SquaredNorm(n, Minus(hgn, cauchy.value)) > 0.0
      && exists beta :: 0.0 <= beta <= 1.0 && hdl == Plus(cauchy.value, Scale(beta, Minus(hgn, cauchy.value)))
    case Undefined =>
      && SquaredNorm(n, hgn) >= delta * delta
      && (cauchy == None
          || (SquaredNorm(n, cauchy.value) <= delta * delta && SquaredNorm(n, Minus(hgn, cauchy.value)) == 0.0))
  }

  /** No step leaves the trust region. */
  lemma StepWithinRegion(n: nat, cauchy: Option<Vector>, hgn: Vector, delta: real, kind: StepKind, hdl: Vector)
    requires StepOk(n, cauchy, hgn, delta, kind, hdl) && kind != Undefined
    ensures SquaredNorm(n, hdl) <= delta * delta
    ensures SquaredNorm(n, hdl) < delta * delta <==> kind == GaussNewton
  {
  }

  /** The Cauchy step minimises the quadratic model along b. */
  ghost predicate IsCauchyStep(n: nat, H: Matrix, b: Vector, alpha: real, hsd: Vector) {
    alpha >= 0.0 && alpha * Form(n, H, b, b) == SquaredNorm(n, b) && hsd == Scale(alpha, b)
  }

  /** Whatever the kind of step, the quadratic model predicts that it does not increase the cost. */
  lemma StepGain(n: nat, H: Matrix, b: Vector, alpha: real, damp: real, cauchy: Option<Vector>, hgn: Vector, delta: real,
                 kind: StepKind, hdl: Vector)
    requires SymmetricMatrix(n, H) && PositiveSemidefinite(n, H) && damp >= 0.0 && Solves(n, Damped(H, damp), hgn, b)
    requires cauchy.Some? ==> IsCauchyStep(n, H, b, alpha, cauchy.value)
    requires StepOk(n, cauchy, hgn, delta, kind, hdl) && kind != Undefined
    ensures Gain(n, H, b, hdl) >= 0.0
  {
    hide Gain, Form, Dot;
    NewtonGain(n, H, damp, hgn, b);
    match kind
    case GaussNewton =>
    case SteepestDescent =>
      var t :| 0.0 <= t <= 1.0 && hdl == Scale(t, cauchy.value);
      SteepestGain(n, H, b, alpha, t);
    case Dogleg =>
      var beta :| 0.0 <= beta <= 1.0 && hdl == Plus(cauchy.value, Scale(beta, Minus(hgn, cauchy.value)));
      CauchyGain(n, H, b, alpha, cauchy.value);
      GainConcave(n, H, b, beta, cauchy.value, hgn);
      MulNonNegative(1.0 - beta, Gain(n, H, b, cauchy.value));
      MulNonNegative(beta, Gain(n, H, b, hgn));
  }

  lemma CauchyGain(n: nat, H: Matrix, b: Vector, alpha: real, hsd: Vector)
    requires IsCauchyStep(n, H, b, alpha, hsd)
    ensures Gain(n, H, b, hsd) >= 0.0
  {
    SteepestGain(n, H, b, alpha, 1.0);
    GainCong(n, H, b, hsd, Scale(1.0, hsd));
  }

  /** Comparing norms is comparing their squares. */
  lemma NormOrder(x: real, y: real, norm: real)
    requires norm >= 0.0 && norm * norm == x && y >= 0.0
    ensures norm < y <==> x < y * y
  {
    if norm < y {
      SquareLess(norm, y);
    } else {
      RootAtMost(y, norm);
      if norm > y {
        SquareLess(y, norm);
      }
    }
  }

  lemma RatioBounds(delta: real, norm: real)
    requires norm > delta > 0.0
    ensures 0.0 <= delta / norm <= 1.0 && (delta / norm) * norm == delta
  {
    DivideNonNegative(delta, norm);
    var t := delta / norm;
    if t > 1.0 {
      MulPositive(t - 1.0, norm);
      Distribute(norm, t, 1.0);
    }
  }

  lemma SquareOfProduct(t: real, x: real)
    ensures t * (t * (x * x)) == (t * x) * (t * x)
  {
    Reassociate(t, x, x);
    ScaledTerm(t, t * x, x);
  }

  lemma ScaledLength(n: nat, hsd: Vector, hsdNorm: real, delta: real)
    requires hsdNorm > delta > 0.0 && hsdNorm * hsdNorm == SquaredNorm(n, hsd)
    ensures 0.0 <= delta / hsdNorm <= 1.0
    ensures SquaredNorm(n, Scale(delta / hsdNorm, hsd)) == delta * delta
  {
    RatioBounds(delta, hsdNorm);
    var t := delta / hsdNorm;
    calc {
      SquaredNorm(n, Scale(t, hsd));
      { DotScale(n, t, hsd, Scale(t, hsd)); }
      t * Dot(n, hsd, Scale(t, hsd));
      { DotScale(n, t, hsd, hsd); }
      t * (t * SquaredNorm(n, hsd));
      { SquareOfProduct(t, hsdNorm); }
      (t * hsdNorm) * (t * hsdNorm);
    }
  }

  /**
   Chooses the step for the trust region of radius delta. When the two candidates coincide on the
   boundary, the formula for beta divides zero by zero and there is no step.
   */
  method ChooseStep(n: nat, cauchy: Option<Vector>, hgn: Vector, delta: real, sqrt: real -> real)
    returns (kind: StepKind, hdl: Vector)
    requires delta > 0.0 && IsSqrt(sqrt)
    ensures StepOk(n, cauchy, hgn, delta, kind, hdl)
  {
    var hgnNorm := sqrt(SquaredNorm(n, hgn));
    NormOrder(SquaredNorm(n, hgn), delta, hgnNorm);
    if hgnNorm < delta {
      return GaussNewton, hgn;
    }
    if cauchy == None {
      return Undefined, hgn;
    }
    kind, hdl := StepOnBoundary(n, cauchy.value, hgn, delta, sqrt);
  }

  method StepOnBoundary(n: nat, hsd: Vector, hgn: Vector, delta: real, sqrt: real -> real)
    returns (kind: StepKind, hdl: Vector)
    requires delta > 0.0 && IsSqrt(sqrt) && SquaredNorm(n, hgn) >= delta * delta
    ensures StepOk(n, Some(hsd), hgn, delta, kind, hdl) && kind != GaussNewton
  {
    var hsdNorm := sqrt(SquaredNorm(n, hsd));
    if hsdNorm > delta {
      ScaledLength(n, hsd, hsdNorm, delta);
      SquareLess(delta, hsdNorm);
      return SteepestDescent, Scale(delta / hsdNorm, hsd);
    }
    NormAtMost(n, hsd, hsdNorm, delta);
    var aux := Minus(hgn, hsd);
    if SquaredNorm(n, aux) == 0.0 {
      return Undefined, hsd;
    }
    var beta := ComputeBeta(n, hsd, hgn, delta, sqrt);
    return Dogleg, Plus(hsd, Scale(beta, aux));
  }

  /** The factor along hgn - hsd, computed by whichever formula does not cancel. */
  method ComputeBeta(n: nat, hsd: Vector, hgn: Vector, delta: real, sqrt: real -> real) returns (beta: real)
    requires IsSqrt(sqrt) && SquaredNorm(n, Minus(hgn, hsd)) > 0.0
    requires SquaredNorm(n, hsd) <= delta * delta <= SquaredNorm(n, hgn)
    ensures 0.0 <= beta <= 1.0
    ensures SquaredNorm(n, Plus(hsd, Scale(beta, Minus(hgn, hsd)))) == delta * delta
    ensures beta < 1.0 <==> delta * delta < SquaredNorm(n, hgn)
    ensures beta > 0.0 <==> SquaredNorm(n, hsd) < delta * delta || Dot(n, hsd, Minus(hgn, hsd)) < 0.0
  {
    var aux := Minus(hgn, hsd);
    var c, bmaSquaredNorm, hsdSqrNorm := Dot(n, hsd, aux), SquaredNorm(n, aux), SquaredNorm(n, hsd);
    var gap := delta * delta - hsdSqrNorm;
    DiscriminantNonNegative(n, hsd, hgn, delta);
    var root := sqrt(c * c + bmaSquaredNorm * gap);
    if c <= 0.0 {
      beta := (-c + root) / bmaSquaredNorm;
    } else {
      beta := gap / (c + root);
    }
    assert root * root == Discriminant(n, hsd, hgn, delta);
    assert beta == BetaOf(n, hsd, hgn, delta, root);
    DoglegOnBoundary(n, hsd, hgn, delta, root);
  }

  lemma NormAtMost(n: nat, x: Vector, norm: real, delta: real)
    requires 0.0 <= norm <= delta && norm * norm == SquaredNorm(n, x)
    ensures SquaredNorm(n, x) <= delta * delta
  {
    if norm < delta {
      SquareLess(norm, delta);
    }
  }
}
