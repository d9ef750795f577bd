/**
 First-order approximation with a quadratic remainder: f is Close to a + d t when it differs from it
 by at most c t^2. This is what it means for d to be a derivative, and the rules for sums, products
 and reciprocals hold with explicit constants. Multiplication goes by the name Times, so that a proof
 uses only the laws of multiplication it names.
 */
module Calculus {
  import opened Reals

  function Square(t: real): real {
    Times(t, t)
  }

  /** f is a + d t up to c t^2. */
  ghost predicate Close(f: real, a: real, d: real, c: real, t: real) {
    Abs(f - a - Times(d, t)) <= Times(c, Square(t))
  }

  // ----- Laws of multiplication

  lemma Commute(x: real, y: real)
    ensures Times(x, y) == Times(y, x)
  {
  }

  lemma Regroup(x: real, y: real, z: real)
    ensures Times(x, Times(y, z)) == Times(Times(x, y), z)
  {
  }

  lemma Spread(x: real, y: real, z: real)
    ensures Times(x + y, z) == Times(x, z) + Times(y, z)
    ensures Times(z, x + y) == Times(z, x) + Times(z, y)
    ensures Times(x - y, z) == Times(x, z) - Times(y, z)
    ensures Times(z, x - y) == Times(z, x) - Times(z, y)
  {
  }

  lemma Units(x: real)
    ensures Times(x, 1.0) == x && Times(1.0, x) == x && Times(x, 0.0) == 0.0 && Times(0.0, x) == 0.0
  {
  }

  lemma Negate(x: real, y: real)
    ensures Times(-x, y) == -Times(x, y) && Times(x, -y) == -Times(x, y)
  {
  }

  lemma Sign(x: real, y: real)
    requires x >= 0.0 && y >= 0.0
    ensures Times(x, y) >= 0.0
    ensures x > 0.0 && y > 0.0 ==> Times(x, y) > 0.0
  {
  }

  lemma AbsTimes(x: real, y: real)
    ensures Abs(Times(x, y)) == Times(Abs(x), Abs(y))
  {
    hide Times;
    Sign(Abs(x), Abs(y));
    Negate(x, y);
    Negate(x, -y);
    Negate(-x, y);
  }

  lemma Monotone(x: real, y: real, z: real)
    requires 0.0 <= x && y <= z
    ensures Times(x, y) <= Times(x, z) && Times(y, x) <= Times(z, x)
  {
    hide Times;
    Sign(x, z - y);
    Spread(z, y, x);
    Commute(x, y);
    Commute(x, z);
  }

  lemma AbsSum(x: real, y: real)
    ensures Abs(x + y) <= Abs(x) + Abs(y)
  {
  }

  lemma BoundedTimes(x: real, X: real, y: real, Y: real)
    requires Abs(x) <= X && Abs(y) <= Y
    ensures Abs(Times(x, y)) <= Times(X, Y)
  {
    hide Times;
    AbsTimes(x, y);
    Monotone(Abs(x), Abs(y), Y);
    Monotone(Y, Abs(x), X);
  }

  lemma Squares(t: real)
    requires Abs(t) <= 1.0
    ensures 0.0 <= Square(t) <= 1.0 && Square(t) <= Abs(t)
  {
    hide Times;
    AbsTimes(t, t);
    Monotone(Abs(t), Abs(t), 1.0);
    Units(Abs(t));
    SquareSign(t);
  }

  lemma SquareSign(t: real)
    ensures Times(t, t) >= 0.0
  {
  }

  // ----- Sums and multiples

  lemma SumRule(f: real, a: real, d: real, c: real, g: real, b: real, e: real, k: real, t: real)
    requires Close(f, a, d, c, t) && Close(g, b, e, k, t)
    ensures Close(f + g, a + b, d + e, c + k, t)
  {
    hide Times, Square;
    AbsSum(f - a - Times(d, t), g - b - Times(e, t));
    Spread(d, e, t);
    Spread(c, k, Square(t));
  }

  lemma ScaleRule(s: real, f: real, a: real, d: real, c: real, t: real)
    requires Close(f, a, d, c, t)
    ensures Close(Times(s, f), Times(s, a), Times(s, d), Times(Abs(s), c), t)
  {
    hide Times, Square;
    var r := f - a - Times(d, t);
    BoundedTimes(s, Abs(s), r, Times(c, Square(t)));
    Regroup(Abs(s), c, Square(t));
    Spread(f - a, Times(d, t), s);
    Spread(f, a, s);
    Regroup(s, d, t);
  }

  lemma ConstantRule(s: real, t: real)
    ensures Close(s, s, 0.0, 0.0, t)
  {
    Units(t);
    Units(Square(t));
  }

  lemma VariableRule(x: real, t: real)
    ensures Close(x + t, x, 1.0, 0.0, t)
  {
    Units(t);
    Units(Square(t));
  }

  // ----- Products

  /** A bound for everything that is Close to a + d t while t is at most 1. */
  ghost function Magnitude(a: real, d: real, c: real): real {
    Abs(a) + Abs(d) + c
  }

  lemma LineBound(b: real, e: real, t: real)
    requires Abs(t) <= 1.0
    ensures Abs(b + Times(e, t)) <= Magnitude(b, e, 0.0)
  {
    hide Times;
    AbsSum(b, Times(e, t));
    BoundedTimes(e, Abs(e), t, 1.0);
    Units(Abs(e));
  }

  lemma MagnitudeBounds(f: real, a: real, d: real, c: real, t: real)
    requires Abs(t) <= 1.0 && c >= 0.0 && Close(f, a, d, c, t)
    ensures Abs(f) <= Magnitude(a, d, c)
  {
    hide Times, Square;
    LineBound(a, d, t);
    Squares(t);
    Monotone(c, Square(t), 1.0);
    Units(c);
    AbsSum(a + Times(d, t), f - a - Times(d, t));
  }

  ghost function ProductConstant(a: real, d: real, c: real, b: real, e: real, k: real): (r: real)
    ensures c >= 0.0 && k >= 0.0 ==> r >= 0.0
  {
    if c >= 0.0 && k >= 0.0 then
      Sign(Magnitude(a, d, c), k); Sign(Magnitude(b, e, 0.0), c);
      Times(Magnitude(a, d, c), k) + Times(Magnitude(b, e, 0.0), c) + Abs(Times(d, e))
    else Times(Magnitude(a, d, c), k) + Times(Magnitude(b, e, 0.0), c) + Abs(Times(d, e))
  }

  /** The remainder of a product, with the remainders r and s of its factors. */
  lemma ProductRemainder(f: real, a: real, d: real, r: real, g: real, b: real, e: real, s: real, t: real)
    requires f == a + Times(d, t) + r && g == b + Times(e, t) + s
    ensures Times(f, g) - Times(a, b) - Times(Times(a, e) + Times(d, b), t)
         == Times(f, s) + Times(b + Times(e, t), r) + Times(Times(d, e), Square(t))
  {
    hide Times;
    var h, x, y := b + Times(e, t), Times(d, t), Times(e, t);
    Spread(h, s, f);
    Spread(a + x, r, h);
    Commute(r, h);
    Spread(a, x, h);
    Spread(b, y, a);
    Spread(b, y, x);
    Spread(Times(a, e), Times(d, b), t);
    Regroup(a, e, t);
    SwapFactors(d, t, b);
    CrossTerm(d, e, t);
  }

  lemma SwapFactors(d: real, t: real, b: real)
    ensures Times(Times(d, t), b) == Times(Times(d, b), t)
  {
    hide Times;
    Regroup(d, t, b);
    Regroup(d, b, t);
    Commute(t, b);
  }

  lemma CrossTerm(d: real, e: real, t: real)
    ensures Times(Times(d, t), Times(e, t)) == Times(Times(d, e), Square(t))
  {
    hide Times;
    Regroup(Times(d, t), e, t);
    SwapFactors(d, t, e);
    Regroup(Times(d, e), t, t);
  }

  lemma ProductRule(f: real, a: real, d: real, c: real, g: real, b: real, e: real, k: real, t: real)
    requires Abs(t) <= 1.0 && c >= 0.0 && k >= 0.0
    requires Close(f, a, d, c, t) && Close(g, b, e, k, t)
    ensures Close(Times(f, g), Times(a, b), Times(a, e) + Times(d, b), ProductConstant(a, d, c, b, e, k), t)
  {
    hide Times, Square, Abs, Magnitude;
    var r, s := f - a - Times(d, t), g - b - Times(e, t);
    ProductRemainder(f, a, d, r, g, b, e, s, t);
    MagnitudeBounds(f, a, d, c, t);
    LineBound(b, e, t);
    Squares(t);
    ThreeTerms(f, Magnitude(a, d, c), s, k, b + Times(e, t), Magnitude(b, e, 0.0), r, c, Times(d, e), Square(t));
  }

  lemma ThreeTerms(f: real, F: real, s: real, k: real, h: real, H: real, r: real, c: real, w: real, q: real)
    requires 0.0 <= q && Abs(f) <= F && Abs(s) <= Times(k, q) && Abs(h) <= H && Abs(r) <= Times(c, q)
    ensures Abs(Times(f, s) + Times(h, r) + Times(w, q)) <= Times(Times(F, k) + Times(H, c) + Abs(w), q)
  {
    assert Abs(q) == q;
    hide Times, Abs;
    BoundedTimes(f, F, s, Times(k, q));
    BoundedTimes(h, H, r, Times(c, q));
    AbsTimes(w, q);
    AbsSum(Times(f, s) + Times(h, r), Times(w, q));
    AbsSum(Times(f, s), Times(h, r));
    Regroup(F, k, q);
    Regroup(H, c, q);
    Spread(Times(F, k) + Times(H, c), Abs(w), q);
    Spread(Times(F, k), Times(H, c), q);
  }

  // ----- Reciprocals

  function Inverse(y: real): (r: real)
    requires y != 0.0
    ensures Times(r, y) == 1.0 && r != 0.0
  {
    1.0 / y
  }

  ghost function Steepness(e: real, k: real): (r: real)
    ensures k >= 0.0 ==> r > 0.0
  {
    2.0 * (Abs(e) + k + 1.0)
  }

  /** Within this radius g keeps half of b in magnitude. */
  ghost function ReciprocalRadius(b: real, e: real, k: real): (r: real)
    requires b != 0.0 && k >= 0.0
    ensures 0.0 < r <= 1.0 && Times(Steepness(e, k), r) <= Abs(b)
  {
    var m, x := Steepness(e, k), Abs(b) / Steepness(e, k);
    QuotientPositive(Abs(b), m);
    if x < 1.0 then x else Monotone(m, 1.0, x); 1.0
  }

  lemma QuotientPositive(x: real, y: real)
    requires x > 0.0 && y > 0.0
    ensures x / y > 0.0 && Times(y, x / y) == x
  {
    var z := x / y;
    assert y * z == x;
  }

  lemma SmallChange(g: real, b: real, e: real, k: real, t: real)
    requires k >= 0.0 && Abs(t) <= 1.0 && Close(g, b, e, k, t)
    ensures Abs(g - b) <= Times(Abs(e) + k, Abs(t))
  {
    hide Times, Square;
    Squares(t);
    Monotone(k, Square(t), Abs(t));
    AbsTimes(e, t);
    AbsSum(Times(e, t), g - b - Times(e, t));
    Spread(Abs(e), k, Abs(t));
  }

  lemma AwayFromZero(g: real, b: real, e: real, k: real, t: real)
    requires b != 0.0 && k >= 0.0 && Close(g, b, e, k, t) && Abs(t) <= ReciprocalRadius(b, e, k)
    ensures g != 0.0 && 2.0 * Abs(g) >= Abs(b)
  {
    hide Times, Close, ReciprocalRadius;
    SmallChange(g, b, e, k, t);
    Monotone(Steepness(e, k), Abs(t), ReciprocalRadius(b, e, k));
    SteepnessSplits(e, k, Abs(t));
  }

  lemma SteepnessSplits(e: real, k: real, x: real)
    requires x >= 0.0
    ensures Times(Steepness(e, k), x) >= 2.0 * Times(Abs(e) + k, x)
  {
    hide Times;
    var m := Abs(e) + k;
    Spread(m, m, x);
    Spread(m + m, 2.0, x);
    Sign(2.0, x);
  }

  /** The inverse of g is at most twice that of b. */
  lemma InverseBound(g: real, b: real)
    requires b != 0.0 && g != 0.0 && 2.0 * Abs(g) >= Abs(b)
    ensures Abs(Inverse(g)) <= 2.0 * Abs(Inverse(b))
  {
    hide Times, Abs, Inverse;
    var i, j := Abs(Inverse(g)), Abs(Inverse(b));
    AbsTimes(Inverse(g), g);
    AbsTimes(Inverse(b), b);
    AbsOfOne();
    assert Times(i, Abs(g)) == 1.0 && Times(j, Abs(b)) == 1.0;
    Sign(i, j);
    Monotone(Times(i, j), Abs(b), Abs(g) + Abs(g));
    Spread(Abs(g), Abs(g), Times(i, j));
    Regroup(i, j, Abs(b));
    Commute(i, j);
    Regroup(j, i, Abs(g));
    Units(i);
    Units(j);
  }

  lemma AbsOfOne()
    ensures Abs(1.0) == 1.0
  {
  }

  /** With u = g - b = e t + r, the remainder of 1/g is i j ((e j t) u - r), where i = 1/g and j = 1/b. */
  lemma ReciprocalRemainder(g: real, i: real, b: real, j: real, e: real, r: real, t: real)
    requires Times(i, g) == 1.0 && Times(j, b) == 1.0 && g - b == Times(e, t) + r
    ensures i - j + Times(Times(e, Times(j, j)), t) == Times(Times(i, j), Times(Times(Times(e, j), t), g - b) - r)
  {
    hide Times;
    var u, ij, ejt := g - b, Times(i, j), Times(Times(e, j), t);
    InverseDifference(g, i, b, j);
    Spread(Times(ejt, u), r, ij);
    assert Times(ij, u) == Times(ij, Times(e, t)) + Times(ij, r) by {
      Spread(Times(e, t), r, ij);
    }
    assert Times(ij, Times(ejt, u)) == Times(ejt, j - i) by {
      Regroup(ij, ejt, u);
      Commute(ij, ejt);
      Regroup(ejt, ij, u);
    }
    Spread(j, i, ejt);
    assert Times(ejt, j) == Times(Times(e, Times(j, j)), t) by {
      SwapFactors(Times(e, j), t, j);
      Regroup(e, j, j);
    }
    assert Times(ejt, i) == Times(ij, Times(e, t)) by {
      Factors(e, j, t, i);
    }
  }

  lemma Factors(e: real, j: real, t: real, i: real)
    ensures Times(Times(Times(e, j), t), i) == Times(Times(i, j), Times(e, t))
  {
    hide Times;
    SwapFactors(e, j, t);
    Commute(Times(Times(e, t), j), i);
    Commute(Times(e, t), j);
    Regroup(i, j, Times(e, t));
  }

  lemma InverseDifference(g: real, i: real, b: real, j: real)
    requires Times(i, g) == 1.0 && Times(j, b) == 1.0
    ensures j - i == Times(Times(i, j), g - b)
  {
    hide Times;
    var ij := Times(i, j);
    Spread(g, b, ij);
    assert Times(ij, g) == j by {
      SwapFactors(i, j, g);
      Units(j);
    }
    assert Times(ij, b) == i by {
      Regroup(i, j, b);
      Units(i);
    }
  }

  ghost function ReciprocalConstant(b: real, e: real, k: real): (r: real)
    requires b != 0.0
    ensures k >= 0.0 ==> r >= 0.0
  {
    var j := Inverse(b);
    if k >= 0.0 then
      BracketSign(e, j, k); Sign(Abs(j), Abs(j)); Sign(2.0 * Times(Abs(j), Abs(j)), BracketConstant(e, j, k));
      Times(2.0 * Times(Abs(j), Abs(j)), BracketConstant(e, j, k))
    else Times(2.0 * Times(Abs(j), Abs(j)), BracketConstant(e, j, k))
  }

  /** Bounds (e j t) u - r by t^2. */
  function BracketConstant(e: real, j: real, k: real): real {
    Times(Abs(Times(e, j)), Abs(e) + k) + k
  }

  lemma BracketSign(e: real, j: real, k: real)
    requires k >= 0.0
    ensures BracketConstant(e, j, k) >= 0.0
  {
    hide Times;
    Sign(Abs(Times(e, j)), Abs(e) + k);
  }

  lemma BracketBound(g: real, b: real, e: real, k: real, j: real, t: real)
    requires k >= 0.0 && Abs(t) <= 1.0 && Close(g, b, e, k, t)
    ensures Abs(Times(Times(Times(e, j), t), g - b) - (g - b - Times(e, t))) <= Times(BracketConstant(e, j, k), Square(t))
  {
    hide Times, Abs;
    var ej, m, u := Times(e, j), Abs(e) + k, g - b;
    var x, r := Times(Times(ej, t), u), u - Times(e, t);
    SmallChange(g, b, e, k, t);
    AbsTimes(ej, t);
    BoundedTimes(Times(ej, t), Times(Abs(ej), Abs(t)), u, Times(m, Abs(t)));
    CrossTerm(Abs(ej), m, Abs(t));
    AbsSquare(t);
    AbsDifference(x, r);
    Spread(Times(Abs(ej), m), k, Square(t));
  }

  lemma AbsDifference(x: real, y: real)
    ensures Abs(x - y) <= Abs(x) + Abs(y)
  {
  }

  lemma AbsSquare(t: real)
    ensures Square(Abs(t)) == Square(t)
  {
    hide Times;
    AbsTimes(t, t);
    SquareSign(t);
  }

  lemma ReciprocalRule(g: real, b: real, e: real, k: real, t: real)
    requires b != 0.0 && k >= 0.0 && Close(g, b, e, k, t) && Abs(t) <= ReciprocalRadius(b, e, k)
    ensures g != 0.0
    ensures Close(Inverse(g), Inverse(b), -Times(e, Times(Inverse(b), Inverse(b))), ReciprocalConstant(b, e, k), t)
  {
    AwayFromZero(g, b, e, k, t);
    hide Times, Abs, Inverse, Square, BracketConstant, ReciprocalRadius;
    var i, j := Inverse(g), Inverse(b);
    var z := Times(Times(Times(e, j), t), g - b) - (g - b - Times(e, t));
    InverseBound(g, b);
    ReciprocalRemainder(g, i, b, j, e, g - b - Times(e, t), t);
    Negate(Times(e, Times(j, j)), t);
    assert i - j - Times(-Times(e, Times(j, j)), t) == Times(Times(i, j), z);
    BracketBound(g, b, e, k, j, t);
    assert Abs(Times(i, j)) <= 2.0 * Times(Abs(j), Abs(j)) by {
      BoundedTimes(i, 2.0 * Abs(j), j, Abs(j));
      Spread(Abs(j), Abs(j), Abs(j));
    }
    BoundedTimes(Times(i, j), 2.0 * Times(Abs(j), Abs(j)), z, Times(BracketConstant(e, j, k), Square(t)));
    Regroup(2.0 * Times(Abs(j), Abs(j)), BracketConstant(e, j, k), Square(t));
  }
}
