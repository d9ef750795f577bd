/** Dual numbers with an n-dimensional infinitesimal part, and why computing with them differentiates. */
module Jets {
  import opened LinearAlgebra
  import opened Options
  import opened Reals
  import opened Calculus

  /** The value a together with its infinitesimal part v. */
  datatype Jet = Jet(a: real, v: Vector)

  function Constant(value: real): Jet {
    Jet(value, i => 0.0)
  }

  /** value plus the infinitesimal unit in direction k. */
  function Variable(value: real, k: int): Jet {
    Jet(value, i => Delta(i, k))
  }

  function Negative(f: Jet): Jet {
    Jet(-f.a, i => -f.v(i))
  }

  function Plus(f: Jet, g: Jet): Jet {
    Jet(f.a + g.a, i => f.v(i) + g.v(i))
  }

  function PlusScalar(f: Jet, s: real): Jet {
    Jet(f.a + s, f.v)
  }

  function Minus(f: Jet, g: Jet): Jet {
    Jet(f.a - g.a, i => f.v(i) - g.v(i))
  }

  function MinusScalar(f: Jet, s: real): Jet {
    Jet(f.a - s, f.v)
  }

  function ScalarMinus(s: real, f: Jet): Jet {
    Jet(s - f.a, i => -f.v(i))
  }

  function Multiply(f: Jet, g: Jet): Jet {
    Jet(Times(f.a, g.a), i => Times(f.a, g.v(i)) + Times(f.v(i), g.a))
  }

  function MultiplyScalar(f: Jet, s: real): Jet {
    Jet(Times(f.a, s), i => Times(f.v(i), s))
  }

  function Divide(f: Jet, g: Jet): Jet
    requires g.a != 0.0
  {
    var inverse := Inverse(g.a);
    var quotient := Times(f.a, inverse);
    Jet(quotient, i => Times(f.v(i) - Times(quotient, g.v(i)), inverse))
  }

  function ScalarDivide(s: real, g: Jet): Jet
    requires g.a != 0.0
  {
    SquareNonZero(g.a);
    var factor := -s / Square(g.a);
    Jet(s / g.a, i => Times(g.v(i), factor))
  }

  function DivideScalar(f: Jet, s: real): Jet
    requires s != 0.0
  {
    var inverse := Inverse(s);
    Jet(Times(f.a, inverse), i => Times(f.v(i), inverse))
  }

  lemma SquareNonZero(x: real)
    requires x != 0.0
    ensures Square(x) != 0.0
  {
    hide Times;
    var i := Inverse(x);
    Regroup(i, x, x);
    Units(x);
    Units(i);
  }

  // ----- Functors

  /** What a functor may compute from its parameter blocks; s stands for a scalar operand. */
  datatype Expr =
    | Const(s: real)
    | Var(block: nat, index: nat)
    | Neg(f: Expr)
    | Add(f: Expr, g: Expr)
    | AddScalar(f: Expr, s: real)
    | Sub(f: Expr, g: Expr)
    | SubScalar(f: Expr, s: real)
    | ScalarSub(s: real, f: Expr)
    | Mul(f: Expr, g: Expr)
    | MulScalar(f: Expr, s: real)
    | Div(f: Expr, g: Expr)
    | ScalarDiv(s: real, f: Expr)
    | DivScalar(f: Expr, s: real)

  type Blocks = seq<seq<real>>

  ghost predicate InBlocks(params: Blocks, b: int, j: int) {
    0 <= b < |params| && 0 <= j < |params[b]|
  }

  /** The plain value; none for a parameter that does not exist or a zero divisor. */
  function Eval(e: Expr, params: Blocks): Option<real> {
    match e
    case Const(s) => Some(s)
    case Var(b, j) => if b < |params| && j < |params[b]| then Some(params[b][j]) else None
    case Neg(f) => var x := Eval(f, params); if x.Some? then Some(-x.value) else None
    case Add(f, g) =>
      var x, y := Eval(f, params), Eval(g, params);
      if x.Some? && y.Some? then Some(x.value + y.value) else None
    case AddScalar(f, s) => var x := Eval(f, params); if x.Some? then Some(x.value + s) else None
    case Sub(f, g) =>
      var x, y := Eval(f, params), Eval(g, params);
      if x.Some? && y.Some? then Some(x.value - y.value) else None
    case SubScalar(f, s) => var x := Eval(f, params); if x.Some? then Some(x.value - s) else None
    case ScalarSub(s, f) => var x := Eval(f, params); if x.Some? then Some(s - x.value) else None
    case Mul(f, g) =>
      var x, y := Eval(f, params), Eval(g, params);
      if x.Some? && y.Some? then Some(Times(x.value, y.value)) else None
    case MulScalar(f, s) => var x := Eval(f, params); if x.Some? then Some(Times(x.value, s)) else None
    case Div(f, g) =>
      var x, y := Eval(f, params), Eval(g, params);
      if x.Some? && y.Some? && y.value != 0.0 then Some(x.value / y.value) else None
    case ScalarDiv(s, f) =>
      var x := Eval(f, params);
      if x.Some? && x.value != 0.0 then Some(s / x.value) else None
    case DivScalar(f, s) =>
      var x := Eval(f, params);
      if x.Some? && s != 0.0 then Some(x.value / s) else None
  }

  /** The same functor run on jets; block b starts at pointers[b] of the packed parameters. */
  function JetEval(e: Expr, packed: seq<Jet>, pointers: seq<nat>): Option<Jet> {
    match e
    case Const(s) => Some(Constant(s))
    case Var(b, j) => if b < |pointers| && pointers[b] + j < |packed| then Some(packed[pointers[b] + j]) else None
    case Neg(f) => var x := JetEval(f, packed, pointers); if x.Some? then Some(Negative(x.value)) else None
    case Add(f, g) =>
      var x, y := JetEval(f, packed, pointers), JetEval(g, packed, pointers);
      if x.Some? && y.Some? then Some(Plus(x.value, y.value)) else None
    case AddScalar(f, s) => var x := JetEval(f, packed, pointers); if x.Some? then Some(PlusScalar(x.value, s)) else None
    case Sub(f, g) =>
      var x, y := JetEval(f, packed, pointers), JetEval(g, packed, pointers);
      if x.Some? && y.Some? then Some(Minus(x.value, y.value)) else None
    case SubScalar(f, s) => var x := JetEval(f, packed, pointers); if x.Some? then Some(MinusScalar(x.value, s)) else None
    case ScalarSub(s, f) => var x := JetEval(f, packed, pointers); if x.Some? then Some(ScalarMinus(s, x.value)) else None
    case Mul(f, g) =>
      var x, y := JetEval(f, packed, pointers), JetEval(g, packed, pointers);
      if x.Some? && y.Some? then Some(Multiply(x.value, y.value)) else None
    case MulScalar(f, s) => var x := JetEval(f, packed, pointers); if x.Some? then Some(MultiplyScalar(x.value, s)) else None
    case Div(f, g) =>
      var x, y := JetEval(f, packed, pointers), JetEval(g, packed, pointers);
      if x.Some? && y.Some? && y.value.a != 0.0 then Some(Divide(x.value, y.value)) else None
    case ScalarDiv(s, f) =>
      var x := JetEval(f, packed, pointers);
      if x.Some? && x.value.a != 0.0 then Some(ScalarDivide(s, x.value)) else None
    case DivScalar(f, s) =>
      var x := JetEval(f, packed, pointers);
      if x.Some? && s != 0.0 then Some(DivideScalar(x.value, s)) else None
  }

  // ----- Derivatives

  /** The parameters with t added to entry j of block b. */
  ghost function Nudge(params: Blocks, b: int, j: int, t: real): Blocks
    requires InBlocks(params, b, j)
  {
    params[b := params[b][j := params[b][j] + t]]
  }

  /** A germ: along the chosen parameter the expression is value + slope t, up to bound t^2, for t within radius. */
  datatype Germ = Germ(value: real, slope: real, bound: real, radius: real)

  ghost predicate CloseAt(e: Expr, params: Blocks, b: int, j: int, germ: Germ, t: real)
    requires InBlocks(params, b, j)
  {
    var x := Eval(e, Nudge(params, b, j, t));
    x.Some? && Close(x.value, germ.value, germ.slope, germ.bound, t)
  }

  ghost predicate Approximates(e: Expr, params: Blocks, b: int, j: int, germ: Germ)
    requires InBlocks(params, b, j)
  {
    && germ.bound >= 0.0 && 0.0 < germ.radius <= 1.0
    && forall t :: Abs(t) <= germ.radius ==> CloseAt(e, params, b, j, germ, t)
  }

  /** d is the partial derivative of the expression by entry j of block b. */
  ghost predicate IsDerivative(e: Expr, params: Blocks, b: int, j: int, d: real)
    requires InBlocks(params, b, j)
  {
    var x := Eval(e, params);
    x.Some? && exists bound, radius :: Approximates(e, params, b, j, Germ(x.value, d, bound, radius))
  }

  /** There is at most one derivative. */
  lemma DerivativeUnique(e: Expr, params: Blocks, b: int, j: int, d: real, d': real)
    requires InBlocks(params, b, j) && IsDerivative(e, params, b, j, d) && IsDerivative(e, params, b, j, d')
    ensures d == d'
  {
    var a := Eval(e, params).value;
    var c, r :| Approximates(e, params, b, j, Germ(a, d, c, r));
    var c', r' :| Approximates(e, params, b, j, Germ(a, d', c', r'));
    if d != d' {
      var t := SmallNumber(Abs(d - d'), c + c', Min(r, r'));
      assert CloseAt(e, params, b, j, Germ(a, d, c, r), t) && CloseAt(e, params, b, j, Germ(a, d', c', r'), t);
      SlopesAgree(Eval(e, Nudge(params, b, j, t)).value, a, d, c, d', c', t);
    }
  }

  /** A positive t within r with c t below x. */
  lemma SmallNumber(x: real, c: real, r: real) returns (t: real)
    requires x > 0.0 && c >= 0.0 && r > 0.0
    ensures 0.0 < t <= r && Times(c, t) < x
  {
    QuotientPositive(x, c + 1.0);
    t := Min(r, x / (c + 1.0));
    hide Times;
    Monotone(c + 1.0, t, x / (c + 1.0));
    Spread(c, 1.0, t);
    Units(t);
  }

  lemma SlopesAgree(f: real, a: real, d: real, c: real, d': real, c': real, t: real)
    requires t > 0.0 && Close(f, a, d, c, t) && Close(f, a, d', c', t)
    ensures Abs(d - d') <= Times(c + c', t)
  {
    hide Times;
    Spread(d, d', t);
    Spread(c, c', Square(t));
    AbsDifference(f - a - Times(d', t), f - a - Times(d, t));
    AbsTimes(d - d', t);
    Regroup(c + c', t, t);
    if Abs(d - d') > Times(c + c', t) {
      Sign(Abs(d - d') - Times(c + c', t), t);
      Spread(Abs(d - d'), Times(c + c', t), t);
    }
  }

  // ----- One rule per operation

  lemma ConstApproximates(s: real, params: Blocks, b: int, j: int)
    requires InBlocks(params, b, j)
    ensures Approximates(Const(s), params, b, j, Germ(s, 0.0, 0.0, 1.0))
  {
    forall t | Abs(t) <= 1.0 ensures CloseAt(Const(s), params, b, j, Germ(s, 0.0, 0.0, 1.0), t) {
      ConstantRule(s, t);
    }
  }

  lemma VarApproximates(block: nat, index: nat, params: Blocks, b: int, j: int)
    requires InBlocks(params, b, j) && InBlocks(params, block, index)
    ensures var slope := if block == b && index == j then 1.0 else 0.0;
            Approximates(Var(block, index), params, b, j, Germ(params[block][index], slope, 0.0, 1.0))
  {
    var x, slope := params[block][index], if block == b && index == j then 1.0 else 0.0;
    forall t | Abs(t) <= 1.0 ensures CloseAt(Var(block, index), params, b, j, Germ(x, slope, 0.0, 1.0), t) {
      ConstantRule(x, t);
      VariableRule(x, t);
    }
  }

  lemma SumApproximates(f: Expr, g: Expr, params: Blocks, b: int, j: int, p: Germ, q: Germ)
    requires InBlocks(params, b, j) && Approximates(f, params, b, j, p) && Approximates(g, params, b, j, q)
    ensures Approximates(Add(f, g), params, b, j,
                         Germ(p.value + q.value, p.slope + q.slope, p.bound + q.bound, Min(p.radius, q.radius)))
  {
    hide Close;
    var germ := Germ(p.value + q.value, p.slope + q.slope, p.bound + q.bound, Min(p.radius, q.radius));
    forall t | Abs(t) <= germ.radius ensures CloseAt(Add(f, g), params, b, j, germ, t) {
      assert CloseAt(f, params, b, j, p, t) && CloseAt(g, params, b, j, q, t);
      var x, y := Eval(f, Nudge(params, b, j, t)).value, Eval(g, Nudge(params, b, j, t)).value;
      SumRule(x, p.value, p.slope, p.bound, y, q.value, q.slope, q.bound, t);
    }
  }

  lemma DifferenceApproximates(f: Expr, g: Expr, params: Blocks, b: int, j: int, p: Germ, q: Germ)
    requires InBlocks(params, b, j) && Approximates(f, params, b, j, p) && Approximates(g, params, b, j, q)
    ensures Approximates(Sub(f, g), params, b, j,
                         Germ(p.value - q.value, p.slope - q.slope, p.bound + q.bound, Min(p.radius, q.radius)))
  {
    hide Close;
    var germ := Germ(p.value - q.value, p.slope - q.slope, p.bound + q.bound, Min(p.radius, q.radius));
    forall t | Abs(t) <= germ.radius ensures CloseAt(Sub(f, g), params, b, j, germ, t) {
      assert CloseAt(f, params, b, j, p, t) && CloseAt(g, params, b, j, q, t);
      var x, y := Eval(f, Nudge(params, b, j, t)).value, Eval(g, Nudge(params, b, j, t)).value;
      NegativeRule(y, q.value, q.slope, q.bound, t);
      SumRule(x, p.value, p.slope, p.bound, -y, -q.value, -q.slope, q.bound, t);
    }
  }

  lemma NegativeRule(f: real, a: real, d: real, c: real, t: real)
    requires Close(f, a, d, c, t)
    ensures Close(-f, -a, -d, c, t)
  {
    hide Times;
    Negate(d, t);
  }

  ghost function ProductGerm(p: Germ, q: Germ): Germ {
    Germ(Times(p.value, q.value), Times(p.value, q.slope) + Times(p.slope, q.value),
         ProductConstant(p.value, p.slope, p.bound, q.value, q.slope, q.bound), Min(p.radius, q.radius))
  }

  lemma ProductApproximates(f: Expr, g: Expr, params: Blocks, b: int, j: int, p: Germ, q: Germ)
    requires InBlocks(params, b, j) && Approximates(f, params, b, j, p) && Approximates(g, params, b, j, q)
    ensures Approximates(Mul(f, g), params, b, j, ProductGerm(p, q))
  {
    hide Close, Times, ProductConstant;
    var germ := ProductGerm(p, q);
    forall t | Abs(t) <= germ.radius ensures CloseAt(Mul(f, g), params, b, j, germ, t) {
      assert CloseAt(f, params, b, j, p, t) && CloseAt(g, params, b, j, q, t);
      var x, y := Eval(f, Nudge(params, b, j, t)).value, Eval(g, Nudge(params, b, j, t)).value;
      ProductRule(x, p.value, p.slope, p.bound, y, q.value, q.slope, q.bound, t);
    }
  }

  /** Shifts and multiples by a scalar. */
  lemma ShiftApproximates(e: Expr, f: Expr, s: real, params: Blocks, b: int, j: int, p: Germ)
    requires InBlocks(params, b, j) && Approximates(f, params, b, j, p)
    requires (e == AddScalar(f, s)) || (e == SubScalar(f, -s))
    ensures Approximates(e, params, b, j, Germ(p.value + s, p.slope, p.bound, p.radius))
  {
    hide Times;
    forall t | Abs(t) <= p.radius ensures CloseAt(e, params, b, j, Germ(p.value + s, p.slope, p.bound, p.radius), t) {
      assert CloseAt(f, params, b, j, p, t);
    }
  }

  lemma ReflectionApproximates(e: Expr, f: Expr, s: real, params: Blocks, b: int, j: int, p: Germ)
    requires InBlocks(params, b, j) && Approximates(f, params, b, j, p)
    requires e == ScalarSub(s, f) || (e == Neg(f) && s == 0.0)
    ensures Approximates(e, params, b, j, Germ(s - p.value, -p.slope, p.bound, p.radius))
  {
    hide Times;
    forall t | Abs(t) <= p.radius ensures CloseAt(e, params, b, j, Germ(s - p.value, -p.slope, p.bound, p.radius), t) {
      assert CloseAt(f, params, b, j, p, t);
      Negate(p.slope, t);
    }
  }

  ghost function ScaledGerm(p: Germ, s: real): (q: Germ)
    ensures p.bound >= 0.0 ==> q.bound >= 0.0
  {
    if p.bound >= 0.0 then Sign(Abs(s), p.bound); Germ(Times(p.value, s), Times(p.slope, s), Times(Abs(s), p.bound), p.radius)
    else Germ(Times(p.value, s), Times(p.slope, s), Times(Abs(s), p.bound), p.radius)
  }

  lemma MultipleApproximates(f: Expr, s: real, params: Blocks, b: int, j: int, p: Germ)
    requires InBlocks(params, b, j) && Approximates(f, params, b, j, p)
    ensures Approximates(MulScalar(f, s), params, b, j, ScaledGerm(p, s))
    ensures s != 0.0 ==> Approximates(DivScalar(f, s), params, b, j, ScaledGerm(p, Inverse(s)))
  {
    hide Times, Close, Inverse;
    forall t | Abs(t) <= p.radius ensures CloseAt(MulScalar(f, s), params, b, j, ScaledGerm(p, s), t) {
      assert CloseAt(f, params, b, j, p, t);
      ScaleFromRight(s, Eval(f, Nudge(params, b, j, t)).value, p, t);
    }
    if s != 0.0 {
      forall t | Abs(t) <= p.radius ensures CloseAt(DivScalar(f, s), params, b, j, ScaledGerm(p, Inverse(s)), t) {
        assert CloseAt(f, params, b, j, p, t);
        var x := Eval(f, Nudge(params, b, j, t)).value;
        ScaleFromRight(Inverse(s), x, p, t);
        QuotientByInverse(x, s);
      }
    }
  }

  lemma ScaleFromRight(s: real, x: real, p: Germ, t: real)
    requires Close(x, p.value, p.slope, p.bound, t)
    ensures Close(Times(x, s), Times(p.value, s), Times(p.slope, s), Times(Abs(s), p.bound), t)
  {
    hide Times, Close;
    ScaleRule(s, x, p.value, p.slope, p.bound, t);
    Commute(s, x);
    Commute(s, p.value);
    Commute(s, p.slope);
  }

  lemma QuotientByInverse(x: real, y: real)
    requires y != 0.0
    ensures x / y == Times(x, Inverse(y))
  {
    var i := Inverse(y);
    SwapFactors(x, i, y);
    assert (x / y) * y == x;
    Regroup(x, i, y);
    Units(x);
    CancelFactor(x / y, Times(x, i), y);
  }

  lemma CancelFactor(u: real, v: real, y: real)
    requires y != 0.0 && Times(u, y) == Times(v, y)
    ensures u == v
  {
    var i := Inverse(y);
    hide Times, Inverse;
    Commute(i, y);
    Regroup(u, y, i);
    Regroup(v, y, i);
    Units(u);
    Units(v);
  }

  ghost function ReciprocalGerm(p: Germ): (q: Germ)
    requires p.value != 0.0 && p.bound >= 0.0 && 0.0 < p.radius <= 1.0
    ensures q.bound >= 0.0 && 0.0 < q.radius <= 1.0
  {
    Germ(Inverse(p.value), -Times(p.slope, Times(Inverse(p.value), Inverse(p.value))),
         ReciprocalConstant(p.value, p.slope, p.bound), Min(p.radius, ReciprocalRadius(p.value, p.slope, p.bound)))
  }

  lemma ReciprocalApproximates(g: Expr, params: Blocks, b: int, j: int, p: Germ)
    requires InBlocks(params, b, j) && Approximates(g, params, b, j, p) && p.value != 0.0
    ensures Approximates(ScalarDiv(1.0, g), params, b, j, ReciprocalGerm(p))
  {
    hide Times, Close, ReciprocalConstant, ReciprocalRadius;
    var germ := ReciprocalGerm(p);
    forall t | Abs(t) <= germ.radius ensures CloseAt(ScalarDiv(1.0, g), params, b, j, germ, t) {
      assert CloseAt(g, params, b, j, p, t);
      ReciprocalRule(Eval(g, Nudge(params, b, j, t)).value, p.value, p.slope, p.bound, t);
    }
  }

  /** Two expressions with the same values have the same germs. */
  lemma SameValues(e: Expr, e': Expr, params: Blocks, b: int, j: int, p: Germ)
    requires InBlocks(params, b, j) && Approximates(e, params, b, j, p)
    requires forall ps :: Eval(e, ps) == Eval(e', ps)
    ensures Approximates(e', params, b, j, p)
  {
    hide Eval, Close;
    forall t | Abs(t) <= p.radius ensures CloseAt(e', params, b, j, p, t) {
      assert CloseAt(e, params, b, j, p, t);
    }
  }

  lemma QuotientIsProduct(f: Expr, g: Expr, ps: Blocks)
    ensures Eval(Mul(f, ScalarDiv(1.0, g)), ps) == Eval(Div(f, g), ps)
  {
    hide Times, Inverse;
    var x, y := Eval(f, ps), Eval(g, ps);
    if x.Some? && y.Some? && y.value != 0.0 {
      QuotientByInverse(x.value, y.value);
      QuotientByInverse(1.0, y.value);
      Units(Inverse(y.value));
    }
  }

  lemma ScalarQuotientIsProduct(s: real, g: Expr, ps: Blocks)
    ensures Eval(MulScalar(ScalarDiv(1.0, g), s), ps) == Eval(ScalarDiv(s, g), ps)
  {
    hide Times, Inverse;
    var y := Eval(g, ps);
    if y.Some? && y.value != 0.0 {
      QuotientByInverse(s, y.value);
      QuotientByInverse(1.0, y.value);
      Units(Inverse(y.value));
      Commute(s, Inverse(y.value));
    }
  }

  lemma QuotientApproximates(f: Expr, g: Expr, params: Blocks, b: int, j: int, p: Germ, q: Germ)
    requires InBlocks(params, b, j) && Approximates(f, params, b, j, p) && Approximates(g, params, b, j, q) && q.value != 0.0
    ensures Approximates(Div(f, g), params, b, j, ProductGerm(p, ReciprocalGerm(q)))
  {
    assert q.bound >= 0.0 && 0.0 < q.radius <= 1.0;
    hide *;
    ReciprocalApproximates(g, params, b, j, q);
    ProductApproximates(f, ScalarDiv(1.0, g), params, b, j, p, ReciprocalGerm(q));
    forall ps ensures Eval(Mul(f, ScalarDiv(1.0, g)), ps) == Eval(Div(f, g), ps) {
      QuotientIsProduct(f, g, ps);
    }
    SameValues(Mul(f, ScalarDiv(1.0, g)), Div(f, g), params, b, j, ProductGerm(p, ReciprocalGerm(q)));
  }

  lemma ScalarQuotientApproximates(s: real, g: Expr, params: Blocks, b: int, j: int, q: Germ)
    requires InBlocks(params, b, j) && Approximates(g, params, b, j, q) && q.value != 0.0
    ensures Approximates(ScalarDiv(s, g), params, b, j, ScaledGerm(ReciprocalGerm(q), s))
  {
    assert q.bound >= 0.0 && 0.0 < q.radius <= 1.0;
    hide *;
    ReciprocalApproximates(g, params, b, j, q);
    MultipleApproximates(ScalarDiv(1.0, g), s, params, b, j, ReciprocalGerm(q));
    forall ps ensures Eval(MulScalar(ScalarDiv(1.0, g), s), ps) == Eval(ScalarDiv(s, g), ps) {
      ScalarQuotientIsProduct(s, g, ps);
    }
    SameValues(MulScalar(ScalarDiv(1.0, g), s), ScalarDiv(s, g), params, b, j, ScaledGerm(ReciprocalGerm(q), s));
  }

  /** The slopes of the two quotients are the ones jets compute. */
  lemma QuotientSlope(a: real, d: real, b: real, e: real)
    requires b != 0.0
    ensures Times(a, -Times(e, Times(Inverse(b), Inverse(b)))) + Times(d, Inverse(b))
         == Times(d - Times(Times(a, Inverse(b)), e), Inverse(b))
  {
    hide Times, Inverse;
    var i := Inverse(b);
    Negate(a, Times(e, Times(i, i)));
    Spread(d, Times(Times(a, i), e), i);
    SwapFactors(a, i, e);
    Regroup(a, e, i);
    Regroup(Times(a, e), i, i);
    Regroup(a, e, Times(i, i));
    SwapFactors(Times(a, e), i, i);
  }

  lemma ScalarQuotientSlope(s: real, b: real, e: real)
    requires b != 0.0 && Square(b) != 0.0
    ensures Times(-Times(e, Times(Inverse(b), Inverse(b))), s) == Times(e, -s / Square(b))
  {
    var i, q := Inverse(b), Inverse(Square(b));
    QuotientByInverse(-s, Square(b));
    hide Times, Inverse;
    assert Times(i, i) == q by {
      CrossTerm(i, i, b);
      InverseOfSquare(i, b, q);
    }
    Negate(Times(e, q), s);
    Negate(e, Times(s, q));
    Negate(s, q);
    SwapFactors(e, q, s);
    Regroup(e, s, q);
  }

  lemma InverseOfSquare(i: real, b: real, q: real)
    requires Times(i, b) == 1.0 && Times(q, Square(b)) == 1.0
    ensures Times(i, i) == q
  {
    hide Times;
    CrossTerm(i, i, b);
    Units(1.0);
    Units(Square(b));
    if Square(b) == 0.0 {
      Units(q);
    }
    CancelFactor(Times(i, i), q, Square(b));
  }

  // ----- The theorem

  /** Every parameter of every block is packed as the variable of its own position. */
  ghost predicate Seeded(params: Blocks, packed: seq<Jet>, pointers: seq<nat>) {
    && |pointers| == |params|
    && (forall b, j :: InBlocks(params, b, j) ==>
          pointers[b] + j < |packed| && packed[pointers[b] + j] == Variable(params[b][j], pointers[b] + j))
    && (forall b, j, b', j' :: InBlocks(params, b, j) && InBlocks(params, b', j') && (b, j) != (b', j') ==>
          pointers[b] + j != pointers[b'] + j')
  }

  ghost predicate Matches(e: Expr, params: Blocks, packed: seq<Jet>, pointers: seq<nat>, b: int, j: int, germ: Germ)
    requires InBlocks(params, b, j) && |pointers| == |params|
  {
    var x, y := Eval(e, params), JetEval(e, packed, pointers);
    && x.Some? && y.Some? && x.value == y.value.a == germ.value && y.value.v(pointers[b] + j) == germ.slope
    && Approximates(e, params, b, j, germ)
  }

  /** Wherever the plain functor has a value, the jets compute that value and its derivatives. */
  lemma {:induction false} JetsDifferentiate(e: Expr, params: Blocks, packed: seq<Jet>, pointers: seq<nat>, b: int, j: int)
    returns (germ: Germ)
    requires InBlocks(params, b, j) && Seeded(params, packed, pointers) && Eval(e, params).Some?
    ensures Matches(e, params, packed, pointers, b, j, germ)
  {
    hide Matches, JetEval, Seeded, Times, Inverse;
    SeededLength(params, packed, pointers);
    match e
    case Const(s) =>
      germ := ConstGerm(s, params, packed, pointers, b, j);
    case Var(block, index) =>
      germ := VarGerm(block, index, params, packed, pointers, b, j);
    case Add(f, g) =>
      var p := JetsDifferentiate(f, params, packed, pointers, b, j);
      var q := JetsDifferentiate(g, params, packed, pointers, b, j);
      germ := CombinedGerm(e, f, g, params, packed, pointers, b, j, p, q);
    case Sub(f, g) =>
      var p := JetsDifferentiate(f, params, packed, pointers, b, j);
      var q := JetsDifferentiate(g, params, packed, pointers, b, j);
      germ := CombinedGerm(e, f, g, params, packed, pointers, b, j, p, q);
    case Mul(f, g) =>
      var p := JetsDifferentiate(f, params, packed, pointers, b, j);
      var q := JetsDifferentiate(g, params, packed, pointers, b, j);
      germ := CombinedGerm(e, f, g, params, packed, pointers, b, j, p, q);
    case Div(f, g) =>
      var p := JetsDifferentiate(f, params, packed, pointers, b, j);
      var q := JetsDifferentiate(g, params, packed, pointers, b, j);
      germ := CombinedGerm(e, f, g, params, packed, pointers, b, j, p, q);
    case Neg(f) =>
      var p := JetsDifferentiate(f, params, packed, pointers, b, j);
      germ := ScalarGerm(e, f, 0.0, params, packed, pointers, b, j, p);
    case AddScalar(f, s) =>
      var p := JetsDifferentiate(f, params, packed, pointers, b, j);
      germ := ScalarGerm(e, f, s, params, packed, pointers, b, j, p);
    case SubScalar(f, s) =>
      var p := JetsDifferentiate(f, params, packed, pointers, b, j);
      germ := ScalarGerm(e, f, s, params, packed, pointers, b, j, p);
    case ScalarSub(s, f) =>
      var p := JetsDifferentiate(f, params, packed, pointers, b, j);
      germ := ScalarGerm(e, f, s, params, packed, pointers, b, j, p);
    case MulScalar(f, s) =>
      var p := JetsDifferentiate(f, params, packed, pointers, b, j);
      germ := ScalarGerm(e, f, s, params, packed, pointers, b, j, p);
    case ScalarDiv(s, f) =>
      var p := JetsDifferentiate(f, params, packed, pointers, b, j);
      germ := ScalarGerm(e, f, s, params, packed, pointers, b, j, p);
    case DivScalar(f, s) =>
      var p := JetsDifferentiate(f, params, packed, pointers, b, j);
      germ := ScalarGerm(e, f, s, params, packed, pointers, b, j, p);
  }

  lemma SeededLength(params: Blocks, packed: seq<Jet>, pointers: seq<nat>)
    requires Seeded(params, packed, pointers)
    ensures |pointers| == |params|
  {
  }

  lemma ConstGerm(s: real, params: Blocks, packed: seq<Jet>, pointers: seq<nat>, b: int, j: int) returns (germ: Germ)
    requires InBlocks(params, b, j) && |pointers| == |params|
    ensures Matches(Const(s), params, packed, pointers, b, j, germ)
  {
    hide Approximates;
    ConstApproximates(s, params, b, j);
    germ := Germ(s, 0.0, 0.0, 1.0);
  }

  /** The operations on one jet, most of them with a plain number. */
  lemma ScalarGerm(e: Expr, f: Expr, s: real, params: Blocks, packed: seq<Jet>, pointers: seq<nat>, b: int, j: int, p: Germ)
    returns (germ: Germ)
    requires InBlocks(params, b, j) && |pointers| == |params| && Eval(e, params).Some?
    requires e in {Neg(f), AddScalar(f, s), SubScalar(f, s), ScalarSub(s, f), MulScalar(f, s), ScalarDiv(s, f), DivScalar(f, s)}
    requires Matches(f, params, packed, pointers, b, j, p)
    ensures Matches(e, params, packed, pointers, b, j, germ)
  {
    hide Times, Inverse, Approximates, Square, ProductConstant, Abs, Min;
    match e
    case Neg(_) =>
      ReflectionApproximates(e, f, 0.0, params, b, j, p);
      germ := Germ(0.0 - p.value, -p.slope, p.bound, p.radius);
    case AddScalar(_, _) =>
      ShiftApproximates(e, f, s, params, b, j, p);
      germ := Germ(p.value + s, p.slope, p.bound, p.radius);
    case SubScalar(_, _) =>
      ShiftApproximates(e, f, -s, params, b, j, p);
      germ := Germ(p.value + (-s), p.slope, p.bound, p.radius);
    case ScalarSub(_, _) =>
      ReflectionApproximates(e, f, s, params, b, j, p);
      germ := Germ(s - p.value, -p.slope, p.bound, p.radius);
    case MulScalar(_, _) =>
      MultipleApproximates(f, s, params, b, j, p);
      germ := ScaledGerm(p, s);
    case ScalarDiv(_, _) =>
      germ := ScalarDivGerm(s, f, params, b, j, p);
    case DivScalar(_, _) =>
      MultipleApproximates(f, s, params, b, j, p);
      QuotientByInverse(p.value, s);
      germ := ScaledGerm(p, Inverse(s));
  }

  /** The four operations on two jets. */
  lemma CombinedGerm(e: Expr, f: Expr, g: Expr, params: Blocks, packed: seq<Jet>, pointers: seq<nat>, b: int, j: int,
                     p: Germ, q: Germ)
    returns (germ: Germ)
    requires InBlocks(params, b, j) && |pointers| == |params| && Eval(e, params).Some?
    requires e == Add(f, g) || e == Sub(f, g) || e == Mul(f, g) || e == Div(f, g)
    requires Matches(f, params, packed, pointers, b, j, p) && Matches(g, params, packed, pointers, b, j, q)
    ensures Matches(e, params, packed, pointers, b, j, germ)
  {
    hide Times, Inverse, Approximates, Square, ProductConstant, Abs, Min;
    match e
    case Add(_, _) =>
      SumApproximates(f, g, params, b, j, p, q);
      germ := Germ(p.value + q.value, p.slope + q.slope, p.bound + q.bound, Min(p.radius, q.radius));
    case Sub(_, _) =>
      DifferenceApproximates(f, g, params, b, j, p, q);
      germ := Germ(p.value - q.value, p.slope - q.slope, p.bound + q.bound, Min(p.radius, q.radius));
    case Mul(_, _) =>
      ProductApproximates(f, g, params, b, j, p, q);
      germ := ProductGerm(p, q);
    case Div(_, _) =>
      germ := DivGerm(f, g, params, b, j, p, q);
  }

  /** Without looking at derivatives: the jets' values are the plain ones. */
  lemma {:induction false} JetsEvaluate(e: Expr, params: Blocks, packed: seq<Jet>, pointers: seq<nat>)
    requires Seeded(params, packed, pointers) && Eval(e, params).Some?
    ensures JetEval(e, packed, pointers).Some? && JetEval(e, packed, pointers).value.a == Eval(e, params).value
  {
    hide Times, Inverse, Square, Seeded;
    match e
    case Const(_) =>
    case Var(block, index) => VarEvaluates(block, index, params, packed, pointers);
    case Neg(f) => JetsEvaluate(f, params, packed, pointers);
    case AddScalar(f, _) => JetsEvaluate(f, params, packed, pointers);
    case SubScalar(f, _) => JetsEvaluate(f, params, packed, pointers);
    case ScalarSub(_, f) => JetsEvaluate(f, params, packed, pointers);
    case MulScalar(f, _) => JetsEvaluate(f, params, packed, pointers);
    case ScalarDiv(_, f) => JetsEvaluate(f, params, packed, pointers);
    case DivScalar(f, s) =>
      JetsEvaluate(f, params, packed, pointers);
      QuotientByInverse(Eval(f, params).value, s);
    case Add(f, g) =>
      JetsEvaluate(f, params, packed, pointers);
      JetsEvaluate(g, params, packed, pointers);
    case Sub(f, g) =>
      JetsEvaluate(f, params, packed, pointers);
      JetsEvaluate(g, params, packed, pointers);
    case Mul(f, g) =>
      JetsEvaluate(f, params, packed, pointers);
      JetsEvaluate(g, params, packed, pointers);
    case Div(f, g) =>
      JetsEvaluate(f, params, packed, pointers);
      JetsEvaluate(g, params, packed, pointers);
      QuotientByInverse(Eval(f, params).value, Eval(g, params).value);
  }

  lemma VarEvaluates(block: nat, index: nat, params: Blocks, packed: seq<Jet>, pointers: seq<nat>)
    requires Seeded(params, packed, pointers) && InBlocks(params, block, index)
    ensures block < |pointers| && pointers[block] + index < |packed| && packed[pointers[block] + index].a == params[block][index]
  {
    assert packed[pointers[block] + index] == Variable(params[block][index], pointers[block] + index);
  }

  lemma VarGerm(block: nat, index: nat, params: Blocks, packed: seq<Jet>, pointers: seq<nat>, b: int, j: int)
    returns (germ: Germ)
    requires InBlocks(params, b, j) && Seeded(params, packed, pointers) && InBlocks(params, block, index)
    ensures Matches(Var(block, index), params, packed, pointers, b, j, germ)
  {
    VarApproximates(block, index, params, b, j);
    germ := Germ(params[block][index], if block == b && index == j then 1.0 else 0.0, 0.0, 1.0);
    hide Approximates;
    assert packed[pointers[block] + index] == Variable(params[block][index], pointers[block] + index);
  }

  lemma DivGerm(f: Expr, g: Expr, params: Blocks, b: int, j: int, p: Germ, q: Germ) returns (germ: Germ)
    requires InBlocks(params, b, j) && Approximates(f, params, b, j, p) && Approximates(g, params, b, j, q) && q.value != 0.0
    ensures Approximates(Div(f, g), params, b, j, germ)
    ensures germ.value == p.value / q.value == Times(p.value, Inverse(q.value))
    ensures germ.slope == Times(p.slope - Times(Times(p.value, Inverse(q.value)), q.slope), Inverse(q.value))
  {
    germ := ProductGerm(p, ReciprocalGerm(q));
    hide Times, Inverse, Approximates, ProductConstant, ReciprocalConstant, ReciprocalRadius, Square, Min;
    QuotientApproximates(f, g, params, b, j, p, q);
    QuotientByInverse(p.value, q.value);
    QuotientSlope(p.value, p.slope, q.value, q.slope);
  }

  lemma ScalarDivGerm(s: real, g: Expr, params: Blocks, b: int, j: int, q: Germ) returns (germ: Germ)
    requires InBlocks(params, b, j) && Approximates(g, params, b, j, q) && q.value != 0.0
    ensures Approximates(ScalarDiv(s, g), params, b, j, germ) && Square(q.value) != 0.0
    ensures germ.value == s / q.value && germ.slope == Times(q.slope, -s / Square(q.value))
  {
    SquareNonZero(q.value);
    germ := ScaledGerm(ReciprocalGerm(q), s);
    hide Times, Inverse, Square;
    ScalarQuotientApproximates(s, g, params, b, j, q);
    QuotientByInverse(s, q.value);
    Commute(s, Inverse(q.value));
    ScalarQuotientSlope(s, q.value, q.slope);
  }
}
