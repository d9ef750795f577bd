/**
 The block-by-block elimination of landmarks, related to the dense Schur complement: each pair of
 blocks in a landmark's column adds one stretch of the sums that make up E D^-1 E^T.
 */
module SchurElimination {
  import opened Sums
  import opened LinearAlgebra
  import opened BlockLayout
  import opened SparseBlocks
  import opened DiagonalBlocks
  import opened SchurComplement

  /** The block matrices of one solve, and the inverses of the landmark blocks. */
  datatype Context = Context(poseEnds: seq<nat>, landmarkEnds: seq<nat>, hpp: BlockColumns, hpl: BlockColumns, dinv: seq<Matrix>)

  ghost predicate ValidContext(ctx: Context) {
    && ValidBlocks(ctx.poseEnds, ctx.poseEnds, ctx.hpp) && ValidBlocks(ctx.poseEnds, ctx.landmarkEnds, ctx.hpl)
    && |ctx.dinv| == |ctx.landmarkEnds|
  }

  ghost function E(ctx: Context): Matrix {
    Dense(ctx.poseEnds, ctx.landmarkEnds, ctx.hpl)
  }

  ghost function DI(ctx: Context): Matrix {
    DiagonalDense(ctx.landmarkEnds, ctx.dinv)
  }

  /** E D^-1 */
  ghost function G(ctx: Context): Matrix {
    MatMul(Size(ctx.landmarkEnds), E(ctx), DI(ctx))
  }

  /** The terms of entry (i, j) of E D^-1 E^T, one for each landmark coordinate. */
  ghost function Parts(ctx: Context, i: int, j: int): Vector {
    Product(G(ctx), i, Transpose(E(ctx)), j)
  }

  ghost predicate InBlock(ctx: Context, r: nat, a: int) {
    r < |ctx.poseEnds| && 0 <= a < Dim(ctx.poseEnds, r)
  }

  lemma PoseWithin(ctx: Context, r: nat, a: int)
    requires InBlock(ctx, r, a)
    ensures Within(ctx.poseEnds, r, Base(ctx.poseEnds, r) + a)
  {
  }

  lemma LandmarkWithin(ctx: Context, l: nat, t: int)
    requires l < |ctx.landmarkEnds| && 0 <= t < Dim(ctx.landmarkEnds, l)
    ensures Within(ctx.landmarkEnds, l, Base(ctx.landmarkEnds, l) + t)
  {
  }

  /** E within the column of landmark l. */
  lemma EInBlock(ctx: Context, r: nat, a: int, l: nat, t: int)
    requires ValidContext(ctx) && InBlock(ctx, r, a) && l < |ctx.landmarkEnds| && 0 <= t < Dim(ctx.landmarkEnds, l)
    ensures E(ctx)(Base(ctx.poseEnds, r) + a, Base(ctx.landmarkEnds, l) + t) == BlockEntry(ctx.hpl, r, l, a, t)
  {
    PoseWithin(ctx, r, a);
    LandmarkWithin(ctx, l, t);
    hide Within, BlockEntry, BlockOf;
    EntryInBlock(ctx.poseEnds, ctx.landmarkEnds, ctx.hpl, r, l, Base(ctx.poseEnds, r) + a, Base(ctx.landmarkEnds, l) + t);
  }

  /** B_r,l D_l^-1, zero when the landmark does not see pose r. */
  ghost function BDinv(ctx: Context, r: nat, l: nat): Matrix
    requires l < |ctx.dinv|
  {
    if l < |ctx.hpl| && r in ctx.hpl[l] then MatMul(Dim(ctx.landmarkEnds, l), ctx.hpl[l][r], ctx.dinv[l]) else Zero()
  }

  /** A row of E against a column of D^-1 meets only the block of that column. */
  lemma GInBlock(ctx: Context, r: nat, a: int, l: nat, t: int)
    requires ValidContext(ctx) && InBlock(ctx, r, a) && l < |ctx.landmarkEnds| && 0 <= t < Dim(ctx.landmarkEnds, l)
    ensures G(ctx)(Base(ctx.poseEnds, r) + a, Base(ctx.landmarkEnds, l) + t) == BDinv(ctx, r, l)(a, t)
  {
    hide *;
    ContextParts(ctx);
    var ends, i, j := ctx.landmarkEnds, Base(ctx.poseEnds, r) + a, Base(ctx.landmarkEnds, l) + t;
    var f, g := Product(E(ctx), i, DI(ctx), j), BlockRow(ctx, r, a, l, t);
    forall k | 0 <= k < Size(ends) && !Within(ends, l, k) ensures f(k) == 0.0 {
      OtherBlocks(ctx, i, l, t, k);
    }
    forall s | 0 <= s < Dim(ends, l) ensures g(s) == f(Base(ends, l) + s) {
      GTerm(ctx, r, a, l, t, s);
    }
    SumOverBlock(ends, l, f, g);
    RowSum(ctx, r, a, l, t);
    GIsSum(ctx, i, j);
  }

  lemma GIsSum(ctx: Context, i: int, j: int)
    ensures G(ctx)(i, j) == Sum(0, Size(ctx.landmarkEnds), Product(E(ctx), i, DI(ctx), j))
  {
  }

  lemma OtherBlocks(ctx: Context, i: int, l: nat, t: int, k: int)
    requires ValidContext(ctx) && l < |ctx.landmarkEnds| && 0 <= t < Dim(ctx.landmarkEnds, l)
    requires 0 <= k < Size(ctx.landmarkEnds) && !Within(ctx.landmarkEnds, l, k)
    ensures Product(E(ctx), i, DI(ctx), Base(ctx.landmarkEnds, l) + t)(k) == 0.0
  {
    hide E, Within, Base, Dim, DiagonalEntry;
    LandmarkWithin(ctx, l, t);
    DiagonalInBlock(ctx.landmarkEnds, ctx.dinv, l, Base(ctx.landmarkEnds, l) + t, k);
    ZeroFactor(E(ctx)(i, k), DI(ctx)(k, Base(ctx.landmarkEnds, l) + t));
  }

  ghost function BlockRow(ctx: Context, r: nat, a: int, l: nat, t: int): Vector
    requires l < |ctx.dinv|
  {
    s => BlockEntry(ctx.hpl, r, l, a, s) * ctx.dinv[l](s, t)
  }

  lemma GTerm(ctx: Context, r: nat, a: int, l: nat, t: int, s: int)
    requires ValidContext(ctx) && InBlock(ctx, r, a) && l < |ctx.landmarkEnds|
    requires 0 <= t < Dim(ctx.landmarkEnds, l) && 0 <= s < Dim(ctx.landmarkEnds, l)
    ensures Product(E(ctx), Base(ctx.poseEnds, r) + a, DI(ctx), Base(ctx.landmarkEnds, l) + t)(Base(ctx.landmarkEnds, l) + s)
         == BlockRow(ctx, r, a, l, t)(s)
  {
    EInBlock(ctx, r, a, l, s);
    LandmarkWithin(ctx, l, t);
    LandmarkWithin(ctx, l, s);
    BaseMonotone(ctx.landmarkEnds, l, l + 1);
    BaseMonotone(ctx.landmarkEnds, l + 1, |ctx.landmarkEnds|);
    DiagonalInBlock(ctx.landmarkEnds, ctx.dinv, l, Base(ctx.landmarkEnds, l) + t, Base(ctx.landmarkEnds, l) + s);
  }

  lemma RowSum(ctx: Context, r: nat, a: int, l: nat, t: int)
    requires ValidContext(ctx) && l < |ctx.landmarkEnds|
    ensures Sum(0, Dim(ctx.landmarkEnds, l), BlockRow(ctx, r, a, l, t)) == BDinv(ctx, r, l)(a, t)
  {
    var n := Dim(ctx.landmarkEnds, l);
    if r in ctx.hpl[l] {
      var B := ctx.hpl[l][r];
      forall s ensures BlockRow(ctx, r, a, l, t)(s) == Product(B, a, ctx.dinv[l], t)(s) {
        assert BlockEntry(ctx.hpl, r, l, a, s) == B(a, s);
      }
      SumCong(0, n, BlockRow(ctx, r, a, l, t), Product(B, a, ctx.dinv[l], t));
    } else {
      forall s ensures BlockRow(ctx, r, a, l, t)(s) == 0.0 {
        assert BlockEntry(ctx.hpl, r, l, a, s) == 0.0;
      }
      SumZero(0, n, BlockRow(ctx, r, a, l, t));
    }
  }

  /** What landmark l contributes to entry (a, b) of block (r1, r2): B_r1 D^-1 B_r2^T. */
  ghost function PairProduct(ctx: Context, r1: nat, r2: nat, l: nat): Matrix
    requires l < |ctx.dinv|
  {
    if l < |ctx.hpl| && r1 in ctx.hpl[l] && r2 in ctx.hpl[l]
    then MatMul(Dim(ctx.landmarkEnds, l), BDinv(ctx, r1, l), Transpose(ctx.hpl[l][r2]))
    else Zero()
  }

  lemma LandmarkPart(ctx: Context, r1: nat, a: int, r2: nat, b: int, l: nat)
    requires ValidContext(ctx) && InBlock(ctx, r1, a) && InBlock(ctx, r2, b) && l < |ctx.landmarkEnds|
    ensures var f := Parts(ctx, Base(ctx.poseEnds, r1) + a, Base(ctx.poseEnds, r2) + b);
            Sum(0, Base(ctx.landmarkEnds, l + 1), f) == Sum(0, Base(ctx.landmarkEnds, l), f) + PairProduct(ctx, r1, r2, l)(a, b)
  {
    hide *;
    ContextParts(ctx);
    var ends, n := ctx.landmarkEnds, Dim(ctx.landmarkEnds, l);
    var f, g := Parts(ctx, Base(ctx.poseEnds, r1) + a, Base(ctx.poseEnds, r2) + b), PairTerms(ctx, r1, a, r2, b, l);
    forall t | 0 <= t < n ensures g(t) == f(Base(ends, l) + t) {
      PairTerm(ctx, r1, a, r2, b, l, t);
    }
    SumOfBlock(ends, l, f, g);
    PairSum(ctx, r1, a, r2, b, l);
  }

  lemma ContextParts(ctx: Context)
    requires ValidContext(ctx)
    ensures Monotone(ctx.poseEnds) && Monotone(ctx.landmarkEnds)
    ensures |ctx.dinv| == |ctx.hpl| == |ctx.landmarkEnds| && |ctx.hpp| == |ctx.poseEnds|
  {
  }

  lemma PairTerm(ctx: Context, r1: nat, a: int, r2: nat, b: int, l: nat, t: int)
    requires ValidContext(ctx) && InBlock(ctx, r1, a) && InBlock(ctx, r2, b)
    requires l < |ctx.landmarkEnds| && 0 <= t < Dim(ctx.landmarkEnds, l)
    ensures PairTerms(ctx, r1, a, r2, b, l)(t)
         == Parts(ctx, Base(ctx.poseEnds, r1) + a, Base(ctx.poseEnds, r2) + b)(Base(ctx.landmarkEnds, l) + t)
  {
    hide G, E, BDinv, BlockEntry, Base, Dim, InBlock, ValidBlocks;
    GInBlock(ctx, r1, a, l, t);
    EInBlock(ctx, r2, b, l, t);
  }

  ghost function PairTerms(ctx: Context, r1: nat, a: int, r2: nat, b: int, l: nat): Vector
    requires l < |ctx.dinv|
  {
    t => BDinv(ctx, r1, l)(a, t) * BlockEntry(ctx.hpl, r2, l, b, t)
  }

  lemma PairSum(ctx: Context, r1: nat, a: int, r2: nat, b: int, l: nat)
    requires ValidContext(ctx) && l < |ctx.landmarkEnds|
    ensures Sum(0, Dim(ctx.landmarkEnds, l), PairTerms(ctx, r1, a, r2, b, l)) == PairProduct(ctx, r1, r2, l)(a, b)
  {
    var n := Dim(ctx.landmarkEnds, l);
    if r1 in ctx.hpl[l] && r2 in ctx.hpl[l] {
      var Bt := Transpose(ctx.hpl[l][r2]);
      forall t ensures PairTerms(ctx, r1, a, r2, b, l)(t) == Product(BDinv(ctx, r1, l), a, Bt, b)(t) {
        assert BlockEntry(ctx.hpl, r2, l, b, t) == Bt(t, b);
      }
      SumCong(0, n, PairTerms(ctx, r1, a, r2, b, l), Product(BDinv(ctx, r1, l), a, Bt, b));
    } else {
      forall t ensures PairTerms(ctx, r1, a, r2, b, l)(t) == 0.0 {
        assert BDinv(ctx, r1, l)(a, t) == 0.0 || BlockEntry(ctx.hpl, r2, l, b, t) == 0.0;
      }
      SumZero(0, n, PairTerms(ctx, r1, a, r2, b, l));
    }
  }

  // ----- Progress of the elimination

  /** The pairs of rows handled so far: all of the rows before u, and those of row u before v. */
  ghost predicate Done(r1: nat, r2: nat, u: nat, v: nat) {
    r1 < u || (r1 == u && r2 < v)
  }

  /** How many landmarks are eliminated where landmark l is, or is not, done. */
  ghost function Stage(l: nat, done: bool): nat {
    if done then l + 1 else l
  }

  /** Entry (a, b) of block (r1, r2) of the reduced system, with the landmark coordinates before m eliminated. */
  ghost predicate Reduced(ctx: Context, schur: BlockColumns, r1: nat, a: int, r2: nat, b: int, m: int) {
    BlockEntry(schur, r1, r2, a, b)
    == BlockEntry(ctx.hpp, r1, r2, a, b) - Sum(0, m, Parts(ctx, Base(ctx.poseEnds, r1) + a, Base(ctx.poseEnds, r2) + b))
  }

  /** Landmarks before l are eliminated everywhere, landmark l for the pairs that are done. */
  ghost predicate ReducedUpTo(ctx: Context, schur: BlockColumns, l: nat, u: nat, v: nat) {
    forall r1, a, r2, b :: InBlock(ctx, r1, a) && InBlock(ctx, r2, b) && r1 <= r2 ==>
      Reduced(ctx, schur, r1, a, r2, b, Base(ctx.landmarkEnds, Stage(l, Done(r1, r2, u, v))))
  }

  /** Pairs that landmark l does not see need no work. */
  lemma SkipPairs(ctx: Context, schur: BlockColumns, l: nat, u: nat, v: nat, u': nat, v': nat)
    requires ValidContext(ctx) && l < |ctx.landmarkEnds| && ReducedUpTo(ctx, schur, l, u, v)
    requires forall r1, r2 :: Done(r1, r2, u, v) && r1 <= r2 ==> Done(r1, r2, u', v')
    requires forall r1, r2 :: r1 <= r2 && Done(r1, r2, u', v') && !Done(r1, r2, u, v) ==> !(r1 in ctx.hpl[l] && r2 in ctx.hpl[l])
    ensures ReducedUpTo(ctx, schur, l, u', v')
  {
    hide BlockEntry, Base, Dim, Parts, PairProduct;
    forall r1, a, r2, b | InBlock(ctx, r1, a) && InBlock(ctx, r2, b) && r1 <= r2
      ensures Reduced(ctx, schur, r1, a, r2, b, Base(ctx.landmarkEnds, Stage(l, Done(r1, r2, u', v'))))
    {
      assert Reduced(ctx, schur, r1, a, r2, b, Base(ctx.landmarkEnds, Stage(l, Done(r1, r2, u, v))));
      LandmarkPart(ctx, r1, a, r2, b, l);
      if Done(r1, r2, u', v') && !Done(r1, r2, u, v) {
        NoPair(ctx, r1, r2, l, a, b);
      }
    }
  }

  lemma NoPair(ctx: Context, r1: nat, r2: nat, l: nat, a: int, b: int)
    requires l < |ctx.dinv| && l < |ctx.hpl| && !(r1 in ctx.hpl[l] && r2 in ctx.hpl[l])
    ensures PairProduct(ctx, r1, r2, l)(a, b) == 0.0
  {
  }

  /** Subtracting the product of one pair from its block. */
  lemma ReducePair(ctx: Context, schur: BlockColumns, schur': BlockColumns, l: nat, u: nat, v: nat, C: Matrix)
    requires ValidContext(ctx) && l < |ctx.landmarkEnds| && u <= v < |schur| && u in schur[v] && ReducedUpTo(ctx, schur, l, u, v)
    requires schur' == WithBlock(schur, u, v, C)
    requires forall a, b :: C(a, b) == schur[v][u](a, b) - PairProduct(ctx, u, v, l)(a, b)
    ensures ReducedUpTo(ctx, schur', l, u, v + 1)
  {
    hide Base, Reduced, InBlock, ValidContext, WithBlock, PairProduct;
    forall r1, a, r2, b | InBlock(ctx, r1, a) && InBlock(ctx, r2, b) && r1 <= r2
      ensures Reduced(ctx, schur', r1, a, r2, b, Base(ctx.landmarkEnds, Stage(l, Done(r1, r2, u, v + 1))))
    {
      assert Reduced(ctx, schur, r1, a, r2, b, Base(ctx.landmarkEnds, Stage(l, Done(r1, r2, u, v))));
      ReduceEntry(ctx, schur, schur', l, u, v, C, r1, a, r2, b);
    }
  }

  lemma ReduceEntry(ctx: Context, schur: BlockColumns, schur': BlockColumns, l: nat, u: nat, v: nat, C: Matrix,
                    r1: nat, a: int, r2: nat, b: int)
    requires ValidContext(ctx) && l < |ctx.landmarkEnds| && u <= v < |schur| && u in schur[v]
    requires InBlock(ctx, r1, a) && InBlock(ctx, r2, b) && schur' == WithBlock(schur, u, v, C)
    requires C(a, b) == schur[v][u](a, b) - PairProduct(ctx, u, v, l)(a, b)
    ensures forall m :: (r1, r2) != (u, v) && Reduced(ctx, schur, r1, a, r2, b, m) ==> Reduced(ctx, schur', r1, a, r2, b, m)
    ensures (r1, r2) == (u, v) && Reduced(ctx, schur, r1, a, r2, b, Base(ctx.landmarkEnds, l))
        ==> Reduced(ctx, schur', r1, a, r2, b, Base(ctx.landmarkEnds, l + 1))
  {
    hide BlockEntry, WithBlock, Base, Dim, Parts, PairProduct, ValidContext, InBlock, Sum;
    EntryPresent(schur, u, v, a, b);
    EntryAfter(schur, u, v, C, r1, r2, a, b);
    LandmarkPart(ctx, r1, a, r2, b, l);
  }

  // ----- The whole reduced matrix

  /** The symmetric matrix whose upper triangle is the given one. */
  function Upper(A: Matrix): Matrix {
    (i, j) => if i <= j then A(i, j) else A(j, i)
  }

  lemma ReducedAt(ctx: Context, schur: BlockColumns, l: nat, r1: nat, a: int, r2: nat, b: int)
    requires ReducedUpTo(ctx, schur, l, 0, 0) && InBlock(ctx, r1, a) && InBlock(ctx, r2, b) && r1 <= r2
    ensures Reduced(ctx, schur, r1, a, r2, b, Base(ctx.landmarkEnds, l))
  {
    hide Reduced, InBlock, Base;
    assert !Done(r1, r2, 0, 0);
  }

  lemma FullyReduced(ctx: Context, schur: BlockColumns, i: int, j: int)
    requires ValidContext(ctx) && ReducedUpTo(ctx, schur, |ctx.landmarkEnds|, 0, 0)
    requires 0 <= i <= j < Size(ctx.poseEnds)
    ensures Dense(ctx.poseEnds, ctx.poseEnds, schur)(i, j)
         == Dense(ctx.poseEnds, ctx.poseEnds, ctx.hpp)(i, j) - Eliminated(Size(ctx.landmarkEnds), E(ctx), DI(ctx))(i, j)
  {
    hide *;
    ContextParts(ctx);
    var ends := ctx.poseEnds;
    var r1, r2 := BlockOf(ends, i), BlockOf(ends, j);
    BlockOfWithin(ends, i);
    BlockOfWithin(ends, j);
    BlockOrder(ends, r1, i, r2, j);
    WithinBlock(ctx, r1, i);
    WithinBlock(ctx, r2, j);
    ReducedAt(ctx, schur, |ctx.landmarkEnds|, r1, i - Base(ends, r1), r2, j - Base(ends, r2));
    ReducedEntry(ctx, schur, r1, i, r2, j);
  }

  lemma WithinBlock(ctx: Context, r: nat, i: int)
    requires Within(ctx.poseEnds, r, i)
    ensures InBlock(ctx, r, i - Base(ctx.poseEnds, r)) && r < |ctx.poseEnds|
  {
  }

  lemma ReducedEntry(ctx: Context, schur: BlockColumns, r1: nat, i: int, r2: nat, j: int)
    requires Monotone(ctx.poseEnds) && Within(ctx.poseEnds, r1, i) && Within(ctx.poseEnds, r2, j)
    requires Reduced(ctx, schur, r1, i - Base(ctx.poseEnds, r1), r2, j - Base(ctx.poseEnds, r2), Base(ctx.landmarkEnds, |ctx.landmarkEnds|))
    ensures Dense(ctx.poseEnds, ctx.poseEnds, schur)(i, j)
         == Dense(ctx.poseEnds, ctx.poseEnds, ctx.hpp)(i, j) - Eliminated(Size(ctx.landmarkEnds), E(ctx), DI(ctx))(i, j)
  {
    hide Within, Entry, BlockEntry, Base, E, DI;
    EntryInBlock(ctx.poseEnds, ctx.poseEnds, schur, r1, r2, i, j);
    EntryInBlock(ctx.poseEnds, ctx.poseEnds, ctx.hpp, r1, r2, i, j);
  }

  /** The symmetric completion of the reduced blocks is the Schur complement of the symmetric completion of the pose blocks. */
  lemma ReducedIsSchurComplement(ctx: Context, schur: BlockColumns, i: int, j: int)
    requires ValidContext(ctx) && ReducedUpTo(ctx, schur, |ctx.landmarkEnds|, 0, 0)
    requires SymmetricMatrix(Size(ctx.landmarkEnds), DI(ctx))
    requires 0 <= i < Size(ctx.poseEnds) && 0 <= j < Size(ctx.poseEnds)
    ensures Upper(Dense(ctx.poseEnds, ctx.poseEnds, schur))(i, j)
         == Upper(Dense(ctx.poseEnds, ctx.poseEnds, ctx.hpp))(i, j) - Eliminated(Size(ctx.landmarkEnds), E(ctx), DI(ctx))(i, j)
  {
    hide Eliminated, ReducedUpTo, Entry, DI, E;
    if i <= j {
      FullyReduced(ctx, schur, i, j);
    } else {
      FullyReduced(ctx, schur, j, i);
      EliminatedSymmetric(Size(ctx.landmarkEnds), E(ctx), DI(ctx), i, j);
    }
  }

  // ----- The right hand side

  /** D^-1 bl, the landmark part of the right hand side. */
  ghost function Y(ctx: Context, bl: Vector): Vector {
    MatVec(Size(ctx.landmarkEnds), DI(ctx), bl)
  }

  /** B_r,l (D_l^-1 bl), zero when the landmark does not see pose r. */
  ghost function PoseShare(ctx: Context, bl: Vector, r: nat, l: nat): Vector {
    if l < |ctx.hpl| && r in ctx.hpl[l]
    then MatVec(Dim(ctx.landmarkEnds, l), ctx.hpl[l][r], FromOffset(Y(ctx, bl), Base(ctx.landmarkEnds, l)))
    else i => 0.0
  }

  lemma CoefficientPart(ctx: Context, bl: Vector, r: nat, a: int, l: nat)
    requires ValidContext(ctx) && InBlock(ctx, r, a) && l < |ctx.landmarkEnds|
    ensures var f := Terms(E(ctx), Base(ctx.poseEnds, r) + a, Y(ctx, bl));
            Sum(0, Base(ctx.landmarkEnds, l + 1), f) == Sum(0, Base(ctx.landmarkEnds, l), f) + PoseShare(ctx, bl, r, l)(a)
  {
    hide *;
    ContextParts(ctx);
    var f, g := Terms(E(ctx), Base(ctx.poseEnds, r) + a, Y(ctx, bl)), ShareTerms(ctx, bl, r, a, l);
    forall t | 0 <= t < Dim(ctx.landmarkEnds, l) ensures g(t) == f(Base(ctx.landmarkEnds, l) + t) {
      ShareTerm(ctx, bl, r, a, l, t);
    }
    SumOfBlock(ctx.landmarkEnds, l, f, g);
    ShareSum(ctx, bl, r, a, l);
  }

  ghost function ShareTerms(ctx: Context, bl: Vector, r: nat, a: int, l: nat): Vector {
    t => BlockEntry(ctx.hpl, r, l, a, t) * Y(ctx, bl)(Base(ctx.landmarkEnds, l) + t)
  }

  lemma ShareTerm(ctx: Context, bl: Vector, r: nat, a: int, l: nat, t: int)
    requires ValidContext(ctx) && InBlock(ctx, r, a) && l < |ctx.landmarkEnds| && 0 <= t < Dim(ctx.landmarkEnds, l)
    ensures ShareTerms(ctx, bl, r, a, l)(t) == Terms(E(ctx), Base(ctx.poseEnds, r) + a, Y(ctx, bl))(Base(ctx.landmarkEnds, l) + t)
  {
    hide E, Y, BlockEntry, Base, Dim, InBlock, ValidContext;
    EInBlock(ctx, r, a, l, t);
  }

  lemma ShareSum(ctx: Context, bl: Vector, r: nat, a: int, l: nat)
    requires ValidContext(ctx) && l < |ctx.landmarkEnds|
    ensures Sum(0, Dim(ctx.landmarkEnds, l), ShareTerms(ctx, bl, r, a, l)) == PoseShare(ctx, bl, r, l)(a)
  {
    hide Y, Base, Dim;
    var n, y := Dim(ctx.landmarkEnds, l), FromOffset(Y(ctx, bl), Base(ctx.landmarkEnds, l));
    if r in ctx.hpl[l] {
      var B := ctx.hpl[l][r];
      forall t ensures ShareTerms(ctx, bl, r, a, l)(t) == Terms(B, a, y)(t) {
        assert BlockEntry(ctx.hpl, r, l, a, t) == B(a, t);
      }
      SumCong(0, n, ShareTerms(ctx, bl, r, a, l), Terms(B, a, y));
    } else {
      forall t ensures ShareTerms(ctx, bl, r, a, l)(t) == 0.0 {
        assert BlockEntry(ctx.hpl, r, l, a, t) == 0.0;
      }
      SumZero(0, n, ShareTerms(ctx, bl, r, a, l));
    }
  }

  /** Coefficient i of E D^-1 bl, landmark coordinates before m. */
  ghost predicate CoefficientAt(ctx: Context, bl: Vector, coefficients: seq<real>, r: nat, a: int, m: int) {
    && Base(ctx.poseEnds, r) + a < |coefficients| && 0 <= a
    && coefficients[Base(ctx.poseEnds, r) + a] == Sum(0, m, Terms(E(ctx), Base(ctx.poseEnds, r) + a, Y(ctx, bl)))
  }

  /** Landmarks before l are accounted for everywhere, landmark l for the rows before u. */
  ghost predicate CoefficientsUpTo(ctx: Context, bl: Vector, coefficients: seq<real>, l: nat, u: nat) {
    forall r: nat, a :: InBlock(ctx, r, a) ==>
      CoefficientAt(ctx, bl, coefficients, r, a, Base(ctx.landmarkEnds, Stage(l, r < u)))
  }

  lemma SkipUnseen(ctx: Context, bl: Vector, coefficients: seq<real>, l: nat, u: nat, u': nat)
    requires ValidContext(ctx) && l < |ctx.landmarkEnds| && u <= u' && CoefficientsUpTo(ctx, bl, coefficients, l, u)
    requires forall r :: u <= r < u' ==> r !in ctx.hpl[l]
    ensures CoefficientsUpTo(ctx, bl, coefficients, l, u')
  {
    hide Base, Dim, InBlock, E, Y;
    forall r: nat, a | InBlock(ctx, r, a)
      ensures CoefficientAt(ctx, bl, coefficients, r, a, Base(ctx.landmarkEnds, Stage(l, r < u')))
    {
      assert CoefficientAt(ctx, bl, coefficients, r, a, Base(ctx.landmarkEnds, Stage(l, r < u)));
      CoefficientPart(ctx, bl, r, a, l);
    }
  }

  /** Adding a pose's share to its segment. */
  lemma AddShare(ctx: Context, bl: Vector, before: seq<real>, after: seq<real>, l: nat, u: nat)
    requires ValidContext(ctx) && l < |ctx.landmarkEnds| && u < |ctx.poseEnds| && CoefficientsUpTo(ctx, bl, before, l, u)
    requires |after| == |before| && forall p :: 0 <= p < |after| ==>
      after[p] == before[p] + if Within(ctx.poseEnds, u, p) then PoseShare(ctx, bl, u, l)(p - Base(ctx.poseEnds, u)) else 0.0
    ensures CoefficientsUpTo(ctx, bl, after, l, u + 1)
  {
    hide E, Y, PoseShare, Base, Dim, Within, InBlock;
    ContextParts(ctx);
    forall r: nat, a | InBlock(ctx, r, a)
      ensures CoefficientAt(ctx, bl, after, r, a, Base(ctx.landmarkEnds, Stage(l, r < u + 1)))
    {
      assert CoefficientAt(ctx, bl, before, r, a, Base(ctx.landmarkEnds, Stage(l, r < u)));
      PoseWithin(ctx, r, a);
      CoefficientPart(ctx, bl, r, a, l);
      if r != u {
        OtherPose(ctx, r, a, u);
      }
    }
  }

  lemma OtherPose(ctx: Context, r: nat, a: int, u: nat)
    requires Monotone(ctx.poseEnds) && InBlock(ctx, r, a) && r != u
    ensures !Within(ctx.poseEnds, u, Base(ctx.poseEnds, r) + a)
  {
    PoseWithin(ctx, r, a);
    BlockUnique(ctx.poseEnds, r, Base(ctx.poseEnds, r) + a);
    if Within(ctx.poseEnds, u, Base(ctx.poseEnds, r) + a) {
      BlockUnique(ctx.poseEnds, u, Base(ctx.poseEnds, r) + a);
    }
  }

  /** In the end the coefficients are E D^-1 bl. */
  lemma AllCoefficients(ctx: Context, bl: Vector, coefficients: seq<real>, i: int)
    requires ValidContext(ctx) && CoefficientsUpTo(ctx, bl, coefficients, |ctx.landmarkEnds|, 0)
    requires 0 <= i < Size(ctx.poseEnds)
    ensures i < |coefficients| && coefficients[i] == MatVec(Size(ctx.landmarkEnds), E(ctx), Y(ctx, bl))(i)
  {
    hide E, Y;
    var r := BlockOf(ctx.poseEnds, i);
    BlockOfWithin(ctx.poseEnds, i);
    WithinBlock(ctx, r, i);
    assert CoefficientAt(ctx, bl, coefficients, r, i - Base(ctx.poseEnds, r), Base(ctx.landmarkEnds, |ctx.landmarkEnds|));
  }
}
