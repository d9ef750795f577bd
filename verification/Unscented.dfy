/** Sigma points of a Gaussian, and the Gaussian rebuilt from sigma points. */
module Unscented {
  import opened Options
  import opened Sums
  import opened LinearAlgebra

  datatype SigmaPoint = SigmaPoint(sample: Vector, wi: real, wp: real)

  const ALPHA := 0.001
  const BETA := 2.0

  /** The dimension plus lambda, where lambda is alpha^2 times the dimension. */
  ghost function Spread(dim: nat): (r: real)
    ensures r == 1.000001 * dim as real
  {
    dim as real + ALPHA * ALPHA * dim as real
  }

  ghost function CenterWeight(dim: nat): (r: real)
    requires dim > 0
    ensures r * 1.000001 == 0.000001
  {
    assert ALPHA * ALPHA * dim as real == 0.000001 * dim as real;
    QuotientIs(0.000001 * dim as real, Spread(dim), 0.000001 / 1.000001);
    ALPHA * ALPHA * dim as real / Spread(dim)
  }

  lemma QuotientIs(a: real, b: real, q: real)
    requires b != 0.0 && q * b == a
    ensures a / b == q
  {
  }

  ghost function PointWeight(dim: nat): real
    requires dim > 0
  {
    1.0 / (2.0 * Spread(dim))
  }

  function Shifted(mean: Vector, L: Matrix, k: int, sign: real): Vector {
    a => mean(a) + sign * L(a, k)
  }

  /** Point i: the mean, and then for each column of L the mean plus and minus that column. */
  ghost function PointAt(dim: nat, mean: Vector, L: Matrix, i: nat): SigmaPoint
    requires dim > 0
  {
    if i == 0 then SigmaPoint(mean, CenterWeight(dim), CenterWeight(dim) + (1.0 - ALPHA * ALPHA + BETA))
    else SigmaPoint(Shifted(mean, L, (i - 1) / 2, if i % 2 == 1 then 1.0 else -1.0), PointWeight(dim), PointWeight(dim))
  }

  ghost predicate IsSample(dim: nat, mean: Vector, L: Matrix, points: seq<SigmaPoint>)
    requires dim > 0
  {
    |points| == 2 * dim + 1 && forall i: nat :: i < |points| ==> points[i] == PointAt(dim, mean, L, i)
  }

  /** L L^T = c C on the leading dim rows and columns: what the Cholesky decomposition of c C returns. */
  ghost predicate IsFactor(dim: nat, L: Matrix, c: real, C: Matrix) {
    forall a, b :: 0 <= a < dim && 0 <= b < dim ==> MatMul(dim, L, Transpose(L))(a, b) == c * C(a, b)
  }

  function Resized(points: seq<SigmaPoint>, n: nat): (r: seq<SigmaPoint>)
    ensures |r| == n && forall i :: 0 <= i < n && i < |points| ==> r[i] == points[i]
  {
    if n <= |points| then points[..n] else points + seq(n - |points|, _ => SigmaPoint(k => 0.0, 0.0, 0.0))
  }

  /** factor is what the decomposition of the scaled covariance yields; none if it reports an issue. */
  method SampleUnscented(points: seq<SigmaPoint>, dim: nat, mean: Vector, ghost covariance: Matrix, factor: Option<Matrix>)
    returns (ok: bool, sigmaPoints: seq<SigmaPoint>)
    requires dim > 0 && (factor.Some? ==> IsFactor(dim, factor.value, Spread(dim), covariance))
    ensures ok <==> factor.Some?
    ensures |sigmaPoints| == 2 * dim + 1 && sigmaPoints[0] == PointAt(dim, mean, (i, j) => 0.0, 0)
    ensures ok ==> IsSample(dim, mean, factor.value, sigmaPoints)
    ensures sigmaPoints[0].wi * 1.000001 == 0.000001 && sigmaPoints[0].wp - sigmaPoints[0].wi == 2.999999
  {
    var spread := ALPHA * ALPHA * dim as real;
    var center := spread / (dim as real + spread);
    sigmaPoints := Resized(points, 2 * dim + 1);
    sigmaPoints := sigmaPoints[0 := SigmaPoint(mean, center, center + (1.0 - ALPHA * ALPHA + BETA))];
    if factor.None? {
      return false, sigmaPoints;
    }
    var L, wi := factor.value, 1.0 / (2.0 * (dim as real + spread));
    var k := 1;
    for i := 0 to dim
      invariant k == 2 * i + 1 && |sigmaPoints| == 2 * dim + 1
      invariant forall l: nat :: l < k ==> sigmaPoints[l] == PointAt(dim, mean, L, l)
    {
      sigmaPoints := sigmaPoints[k := SigmaPoint(Shifted(mean, L, i, 1.0), wi, wi)];
      k := k + 1;
      sigmaPoints := sigmaPoints[k := SigmaPoint(Shifted(mean, L, i, -1.0), wi, wi)];
      k := k + 1;
    }
    return true, sigmaPoints;
  }

  /** Column i of the factor is added to the mean in the first of its two points and subtracted in the second. */
  lemma PairOfPoints(dim: nat, mean: Vector, L: Matrix, points: seq<SigmaPoint>, i: nat, a: int)
    requires i < dim && IsSample(dim, mean, L, points)
    ensures points[2 * i + 1].sample(a) == mean(a) + L(a, i)
    ensures points[2 * i + 2].sample(a) == mean(a) - L(a, i)
  {
    assert points[2 * i + 1] == PointAt(dim, mean, L, 2 * i + 1);
    assert points[2 * i + 2] == PointAt(dim, mean, L, 2 * i + 2);
  }

  // ----- Reconstruction

  ghost function MeanTerms(points: seq<SigmaPoint>, a: int): Vector {
    i => if 0 <= i < |points| then points[i].wi * points[i].sample(a) else 0.0
  }

  ghost function CovarianceTerms(points: seq<SigmaPoint>, mean: Vector, a: int, b: int): Vector {
    i => if 0 <= i < |points| then points[i].wp * ((points[i].sample(a) - mean(a)) * (points[i].sample(b) - mean(b))) else 0.0
  }

  function AddMean(mean: Vector, p: SigmaPoint): Vector {
    a => mean(a) + p.wi * p.sample(a)
  }

  function AddCovariance(covariance: Matrix, p: SigmaPoint, mean: Vector): Matrix {
    (a, b) => covariance(a, b) + p.wp * ((p.sample(a) - mean(a)) * (p.sample(b) - mean(b)))
  }

  /** The mean weighted with the wi, and the covariance about it weighted with the wp. */
  ghost predicate IsGaussianOf(points: seq<SigmaPoint>, mean: Vector, covariance: Matrix) {
    && (forall a :: mean(a) == Sum(0, |points|, MeanTerms(points, a)))
    && (forall a, b :: covariance(a, b) == Sum(0, |points|, CovarianceTerms(points, mean, a, b)))
  }

  /** The weighted mean and covariance of any list of points. */
  method ReconstructGaussian(points: seq<SigmaPoint>) returns (mean: Vector, covariance: Matrix)
    ensures IsGaussianOf(points, mean, covariance)
  {
    mean, covariance := a => 0.0, (a, b) => 0.0;
    for i := 0 to |points|
      invariant forall a :: mean(a) == Sum(0, i, MeanTerms(points, a))
    {
      mean := AddMean(mean, points[i]);
    }
    for i := 0 to |points|
      invariant forall a, b :: covariance(a, b) == Sum(0, i, CovarianceTerms(points, mean, a, b))
    {
      covariance := AddCovariance(covariance, points[i], mean);
    }
  }

  // ----- The round trip

  lemma {:induction false} PairedSum(n: nat, f: Vector, g: Vector)
    requires forall i :: 0 <= i < n ==> g(i) == f(2 * i + 1) + f(2 * i + 2)
    ensures Sum(0, 2 * n + 1, f) == f(0) + Sum(0, n, g)
  {
    if n > 0 {
      PairedSum(n - 1, f, g);
      assert Sum(0, 2 * n + 1, f) == Sum(0, 2 * n - 1, f) + f(2 * n - 1) + f(2 * n);
    } else {
      assert Sum(0, 1, f) == Sum(0, 0, f) + f(0);
    }
  }

  lemma {:induction false} ConstantSum(n: nat, c: real, f: Vector)
    requires forall i :: 0 <= i < n ==> f(i) == c
    ensures Sum(0, n, f) == n as real * c
  {
    if n > 0 {
      ConstantSum(n - 1, c, f);
    }
  }

  lemma PairMean(w: real, m: real, s: real)
    ensures w * (m + 1.0 * s) + w * (m + -1.0 * s) == 2.0 * w * m
  {
  }

  lemma PairCovariance(w: real, m: real, n: real, s: real, t: real)
    ensures w * ((m + 1.0 * s - m) * (n + 1.0 * t - n)) + w * ((m + -1.0 * s - m) * (n + -1.0 * t - n)) == 2.0 * w * (s * t)
  {
  }

  lemma ZeroProduct(w: real, d: real)
    ensures w * (0.0 * d) == 0.0
  {
  }

  /** The weights of the samples sum to one. */
  lemma WeightsSumToOne(dim: nat)
    requires dim > 0
    ensures Spread(dim) > 0.0 && CenterWeight(dim) + dim as real * (2.0 * PointWeight(dim)) == 1.0
    ensures 2.0 * PointWeight(dim) * Spread(dim) == 1.0
  {
    var n, l := dim as real, ALPHA * ALPHA * dim as real;
    assert n > 0.0 && l > 0.0;
    assert CenterWeight(dim) == l / (n + l);
    assert 2.0 * PointWeight(dim) == 1.0 / (n + l);
    assert n * (1.0 / (n + l)) == n / (n + l);
    assert l / (n + l) + n / (n + l) == 1.0;
  }

  lemma SamplePair(dim: nat, mean: Vector, L: Matrix, points: seq<SigmaPoint>, i: nat)
    requires dim > 0 && IsSample(dim, mean, L, points) && i < dim
    ensures 2 * i + 2 < |points| == 2 * dim + 1
    ensures points[0] == SigmaPoint(mean, points[0].wi, points[0].wp) && points[0].wi == CenterWeight(dim)
    ensures points[2 * i + 1] == SigmaPoint(Shifted(mean, L, i, 1.0), PointWeight(dim), PointWeight(dim))
    ensures points[2 * i + 2] == SigmaPoint(Shifted(mean, L, i, -1.0), PointWeight(dim), PointWeight(dim))
  {
    assert (2 * i + 1 - 1) / 2 == i && (2 * i + 2 - 1) / 2 == i;
  }

  lemma MeanPair(dim: nat, mean: Vector, L: Matrix, points: seq<SigmaPoint>, a: int, i: nat)
    requires dim > 0 && IsSample(dim, mean, L, points) && i < dim
    ensures MeanTerms(points, a)(2 * i + 1) + MeanTerms(points, a)(2 * i + 2) == 2.0 * PointWeight(dim) * mean(a)
    ensures MeanTerms(points, a)(0) == CenterWeight(dim) * mean(a)
  {
    hide IsSample, PointWeight, CenterWeight;
    SamplePair(dim, mean, L, points, i);
    PairMean(PointWeight(dim), mean(a), L(a, i));
  }

  lemma MeanOfSample(dim: nat, mean: Vector, L: Matrix, points: seq<SigmaPoint>, a: int)
    requires dim > 0 && IsSample(dim, mean, L, points)
    ensures Sum(0, |points|, MeanTerms(points, a)) == mean(a)
  {
    hide *;
    var f, c := MeanTerms(points, a), 2.0 * PointWeight(dim) * mean(a);
    var g: Vector := i => c;
    forall i: nat | i < dim ensures g(i) == f(2 * i + 1) + f(2 * i + 2) {
      MeanPair(dim, mean, L, points, a, i);
    }
    MeanPair(dim, mean, L, points, a, 0);
    SamplePair(dim, mean, L, points, 0);
    PairedSum(dim, f, g);
    ConstantSum(dim, c, g);
    WeightsSumToOne(dim);
    Collect(CenterWeight(dim), dim as real, 2.0 * PointWeight(dim), mean(a));
  }

  lemma Collect(w: real, n: real, v: real, m: real)
    ensures w * m + n * (v * m) == (w + n * v) * m
  {
  }

  ghost function CovarianceTerm(dim: nat, L: Matrix, a: int, b: int): Vector
    requires dim > 0
  {
    i => 2.0 * PointWeight(dim) * Product(L, a, Transpose(L), b)(i)
  }

  lemma CovariancePair(dim: nat, mean: Vector, L: Matrix, points: seq<SigmaPoint>, center: Vector, a: int, b: int, i: nat)
    requires dim > 0 && IsSample(dim, mean, L, points) && i < dim && center(a) == mean(a) && center(b) == mean(b)
    ensures var f := CovarianceTerms(points, center, a, b);
            f(2 * i + 1) + f(2 * i + 2) == CovarianceTerm(dim, L, a, b)(i) && f(0) == 0.0
  {
    hide IsSample, PointWeight;
    SamplePair(dim, mean, L, points, i);
    PairCovariance(PointWeight(dim), mean(a), mean(b), L(a, i), L(b, i));
    assert Product(L, a, Transpose(L), b)(i) == L(a, i) * L(b, i);
    ZeroProduct(points[0].wp, mean(b) - center(b));
  }

  lemma CovarianceOfSample(dim: nat, mean: Vector, L: Matrix, points: seq<SigmaPoint>, center: Vector, C: Matrix,
                           a: int, b: int)
    requires dim > 0 && IsSample(dim, mean, L, points) && center(a) == mean(a) && center(b) == mean(b)
    requires 0 <= a < dim && 0 <= b < dim && IsFactor(dim, L, Spread(dim), C)
    ensures Sum(0, |points|, CovarianceTerms(points, center, a, b)) == C(a, b)
  {
    hide *;
    ProductScaled(dim, L, C, a, b);
    var f, g := CovarianceTerms(points, center, a, b), CovarianceTerm(dim, L, a, b);
    forall i: nat | i < dim ensures g(i) == f(2 * i + 1) + f(2 * i + 2) {
      CovariancePair(dim, mean, L, points, center, a, b, i);
    }
    CovariancePair(dim, mean, L, points, center, a, b, 0);
    SamplePair(dim, mean, L, points, 0);
    PairedSum(dim, f, g);
  }

  lemma ProductScaled(dim: nat, L: Matrix, C: Matrix, a: int, b: int)
    requires dim > 0 && 0 <= a < dim && 0 <= b < dim && IsFactor(dim, L, Spread(dim), C)
    ensures Sum(0, dim, CovarianceTerm(dim, L, a, b)) == C(a, b)
  {
    hide *;
    WeightedProduct(dim, L, a, b);
    FactorEntry(dim, L, C, a, b);
    WeightsSumToOne(dim);
    Rescale(2.0 * PointWeight(dim), Spread(dim), C(a, b));
  }

  lemma WeightedProduct(dim: nat, L: Matrix, a: int, b: int)
    requires dim > 0
    ensures Sum(0, dim, CovarianceTerm(dim, L, a, b)) == 2.0 * PointWeight(dim) * MatMul(dim, L, Transpose(L))(a, b)
  {
    hide PointWeight;
    SumScale(0, dim, 2.0 * PointWeight(dim), Product(L, a, Transpose(L), b), CovarianceTerm(dim, L, a, b));
  }

  lemma FactorEntry(dim: nat, L: Matrix, C: Matrix, a: int, b: int)
    requires 0 <= a < dim && 0 <= b < dim && IsFactor(dim, L, Spread(dim), C)
    ensures MatMul(dim, L, Transpose(L))(a, b) == Spread(dim) * C(a, b)
  {
    hide Spread;
  }

  lemma Rescale(w: real, s: real, c: real)
    requires w * s == 1.0
    ensures w * (s * c) == c
  {
    assert w * (s * c) == w * s * c;
  }

  /** A Gaussian is what its samples are reconstructed to. */
  lemma RoundTrip(dim: nat, mean: Vector, covariance: Matrix, L: Matrix, points: seq<SigmaPoint>, mean': Vector,
                  covariance': Matrix)
    requires dim > 0 && IsFactor(dim, L, Spread(dim), covariance) && IsSample(dim, mean, L, points)
    requires IsGaussianOf(points, mean', covariance')
    ensures forall a :: mean'(a) == mean(a)
    ensures forall a, b :: 0 <= a < dim && 0 <= b < dim ==> covariance'(a, b) == covariance(a, b)
  {
    hide IsFactor, IsSample;
    forall a ensures mean'(a) == mean(a) {
      MeanOfSample(dim, mean, L, points, a);
    }
    forall a, b | 0 <= a < dim && 0 <= b < dim ensures covariance'(a, b) == covariance(a, b) {
      CovarianceOfSample(dim, mean, L, points, mean', covariance, a, b);
    }
  }
}
