/** Summing the edges into the blocks of the normal equations, through the block pointers the edges hold. */
module SystemAssembly {
  import opened Options
  import opened LinearAlgebra
  import opened SparseBlocks
  import opened PairIndex
  import opened QuadraticForms
  import opened SystemStore
  import opened BlockSolver
  import Graph = GraphOptimizer

  /** Which matrix an off-diagonal block belongs to. */
  datatype Part = PosePart | CrossPart

  /** The block an edge writes for a pair of its vertices, and whether it writes the transpose. */
  datatype Pointer = Unmapped | Mapped(part: Part, r: nat, c: nat, transposed: bool)

  class Edge {
    /** The position of each of its vertices among the free ones; none when fixed. */
    const ends: seq<Option<nat>>
    /** The edge linearised at given estimates of all vertices: its Jacobians, information matrix and error there. */
    const linearize: seq<Graph.Estimate> -> Measurement
    /** One pointer per pair of vertices. */
    var hessian: seq<Pointer>

    constructor (ends: seq<Option<nat>>, linearize: seq<Graph.Estimate> -> Measurement)
      ensures this.ends == ends && this.linearize == linearize && |hessian| == Triangle(|ends|)
      ensures forall k :: 0 <= k < |hessian| ==> hessian[k] == Unmapped
    {
      this.ends, this.linearize := ends, linearize;
      hessian := seq(Triangle(|ends|), _ => Unmapped);
    }

    /** Wherever it is linearised, the result is about its vertices. */
    ghost predicate Valid() {
      forall s: seq<Graph.Estimate> :: ValidMeasurement(linearize(s)) && linearize(s).ends == ends
    }

    method MapHessianMemory(part: Part, r: nat, c: nat, i: nat, j: nat, rowMajor: bool)
      requires i < j < |ends| && |hessian| == Triangle(|ends|)
      modifies this`hessian
      ensures 0 <= PairToIndex(i, j) < |hessian| == |old(hessian)|
      ensures hessian == old(hessian)[PairToIndex(i, j) := Mapped(part, r, c, rowMajor)]
    {
      PairInRange(i, j, |ends|);
      hessian := hessian[PairToIndex(i, j) := Mapped(part, r, c, rowMajor)];
    }
  }

  lemma PairInRange(i: nat, j: nat, n: nat)
    requires i < j < n
    ensures 0 <= PairToIndex(i, j) < Triangle(n)
  {
    IndexRange(i, j, n);
    PairOfIndex(i, j);
    TriangleFormula(n);
  }

  /** Where the pair of a vertex at position i and one at position j, in the order of their slots, is stored. */
  ghost function Expected(np: nat, i: nat, j: nat): Pointer {
    if i < np && j < np then if i > j then Mapped(PosePart, j, i, true) else Mapped(PosePart, i, j, false)
    else if i >= np then Mapped(CrossPart, j, i - np, true)
    else Mapped(CrossPart, i, j - np, false)
  }

  function Min(i: nat, j: nat): nat {
    if i < j then i else j
  }

  function Max(i: nat, j: nat): nat {
    if i < j then j else i
  }

  ghost predicate PairMapped(ends: seq<Option<nat>>, hessian: seq<Pointer>, st: Store, np: nat, u: nat, v: nat)
    requires u < v < |ends|
  {
    ends[u].Some? && ends[v].Some? ==>
      && 0 <= PairToIndex(u, v) < |hessian|
      && hessian[PairToIndex(u, v)] == Expected(np, ends[u].value, ends[v].value)
      && Present(st, np, Min(ends[u].value, ends[v].value), Max(ends[u].value, ends[v].value))
  }

  /** Every pair of free vertices of the edge points at its block. */
  ghost predicate EdgeMapped(ends: seq<Option<nat>>, hessian: seq<Pointer>, st: Store, np: nat) {
    forall u: nat, v: nat :: u < v < |ends| ==> PairMapped(ends, hessian, st, np, u, v)
  }

  ghost predicate DiagonalPresent(st: Store, np: nat, n: nat) {
    forall i: nat :: i < n ==> Present(st, np, i, i)
  }

  /** Positions are distinct and below n, and no edge joins two landmarks. */
  ghost predicate Supported(ends: seq<Option<nat>>, np: nat, n: nat) {
    && DistinctEnds(ends)
    && (forall s :: 0 <= s < |ends| && ends[s].Some? ==> ends[s].value < n)
    && forall s, t :: 0 <= s < t < |ends| && ends[s].Some? && ends[t].Some? ==> ends[s].value < np || ends[t].value < np
  }

  ghost function StoreOf(solver: BlockSolver): Store
    reads solver.Hpp, solver.Hpl, solver.Hll
  {
    Store(solver.Hpp.blockCols, solver.Hpl.blockCols, solver.Hll.blockCols)
  }

  method AddDiagonal(solver: BlockSolver, np: nat, i: nat, M: Matrix)
    requires solver.Shapes() && Present(StoreOf(solver), np, i, i)
    modifies solver.Hpp, solver.Hll
    ensures solver.Shapes() && StoreOf(solver) == AddToStore(old(StoreOf(solver)), np, i, i, M)
  {
    if i < np {
      solver.Hpp.AddTo(i, i, M);
    } else {
      solver.Hll.AddTo(i - np, i - np, M);
    }
  }

  method AddThrough(solver: BlockSolver, np: nat, pointer: Pointer, ghost lo: nat, ghost hi: nat, M: Matrix)
    requires solver.Shapes() && lo <= hi && lo < np && Present(StoreOf(solver), np, lo, hi) && pointer.Mapped?
    requires pointer.part == (if hi < np then PosePart else CrossPart)
    requires pointer.r == lo && pointer.c == if hi < np then hi else hi - np
    modifies solver.Hpp, solver.Hpl
    ensures solver.Shapes() && StoreOf(solver) == AddToStore(old(StoreOf(solver)), np, lo, hi, M)
  {
    match pointer.part
    case PosePart => solver.Hpp.AddTo(pointer.r, pointer.c, M);
    case CrossPart => solver.Hpl.AddTo(pointer.r, pointer.c, M);
  }

  /** The product written for a pair is the pair's term, whichever way round the block is stored. */
  lemma WrittenTerm(m: Measurement, u: nat, v: nat, i: nat, j: nat, transposed: bool, M: Matrix)
    requires ValidMeasurement(m) && u < |m.ends| && v < |m.ends| && m.ends[u] == Some(i) && m.ends[v] == Some(j)
    requires var AtO := MatMul(m.dimension, Transpose(m.jacobians[u]), m.information);
             M == if transposed then MatMul(m.dimension, Transpose(m.jacobians[v]), Transpose(AtO))
                  else MatMul(m.dimension, AtO, m.jacobians[v])
    ensures forall a, b :: M(a, b) == if transposed then PairTerm(m, j, i)(a, b) else PairTerm(m, i, j)(a, b)
  {
    SlotOf(m, u);
    SlotOf(m, v);
    var AtO := MatMul(m.dimension, Transpose(m.jacobians[u]), m.information);
    if transposed {
      hide Sandwich;
      forall a, b ensures M(a, b) == PairTerm(m, j, i)(a, b) {
        MatMulTranspose(m.dimension, AtO, m.jacobians[v], b, a);
        SandwichIs(m, m.jacobians[u], m.jacobians[v], b, a);
        SandwichTranspose(m, m.jacobians[u], m.jacobians[v], b, a);
      }
    }
  }

  lemma SandwichIs(m: Measurement, A: Matrix, B: Matrix, a: int, b: int)
    ensures Sandwich(m, A, B)(a, b) == MatMul(m.dimension, MatMul(m.dimension, Transpose(A), m.information), B)(a, b)
  {
  }

  /** What summing up edge k relies on. */
  ghost predicate EdgeReady(solver: BlockSolver, edge: Edge, np: nat, n: nat, ms: seq<Measurement>, k: nat)
    reads solver.Hpp, solver.Hpl, solver.Hll, solver.Hschur, edge
  {
    && solver.Shapes() && k < |ms| && ValidMeasurement(ms[k]) && ms[k].ends == edge.ends && Supported(edge.ends, np, n)
    && EdgeMapped(edge.ends, edge.hessian, StoreOf(solver), np) && DiagonalPresent(StoreOf(solver), np, n)
  }

  /** The same blocks exist. */
  ghost predicate SamePattern(st: Store, st': Store, np: nat) {
    forall i: nat, j: nat :: Present(st', np, i, j) <==> Present(st, np, i, j)
  }

  lemma PatternsChain(st: Store, mid: Store, st': Store, np: nat)
    requires SamePattern(st, mid, np) && SamePattern(mid, st', np)
    ensures SamePattern(st, st', np)
  {
    hide Present;
  }

  lemma StaysReady(ends: seq<Option<nat>>, hessian: seq<Pointer>, st: Store, st': Store, np: nat, n: nat)
    requires EdgeMapped(ends, hessian, st, np) && DiagonalPresent(st, np, n)
    requires SamePattern(st, st', np)
    ensures EdgeMapped(ends, hessian, st', np) && DiagonalPresent(st', np, n)
  {
    hide Present;
    forall u: nat, v: nat | u < v < |ends| ensures PairMapped(ends, hessian, st', np, u, v) {
      assert PairMapped(ends, hessian, st, np, u, v);
    }
  }

  /** The off-diagonal block of one pair of free vertices. */
  method AddPair(solver: BlockSolver, edge: Edge, m: Measurement, np: nat, u: nat, v: nat, AtO: Matrix,
                 ghost n: nat, ghost ms: seq<Measurement>, ghost k: nat)
    requires EdgeReady(solver, edge, np, n, ms, k) && m == ms[k] && u < v < |m.ends|
    requires m.ends[u].Some? && m.ends[v].Some?
    requires AtO == MatMul(m.dimension, Transpose(m.jacobians[u]), m.information)
    requires Partial(StoreOf(solver), ms, np, k, u, v)
    modifies solver.Hpp, solver.Hpl
    ensures SamePattern(old(StoreOf(solver)), StoreOf(solver), np)
    ensures EdgeReady(solver, edge, np, n, ms, k) && Partial(StoreOf(solver), ms, np, k, u, v + 1)
  {
    hide Partial, Present, EdgeMapped, Sandwich;
    var i, j := m.ends[u].value, m.ends[v].value;
    var B := m.jacobians[v];
    PointerOfPair(m.ends, edge.hessian, StoreOf(solver), np, n, u, v);
    var pointer := edge.hessian[PairToIndex(u, v)];
    var product := if pointer.transposed then MatMul(m.dimension, Transpose(B), Transpose(AtO)) else MatMul(m.dimension, AtO, B);
    ghost var st := StoreOf(solver);
    AddThrough(solver, np, pointer, Min(i, j), Max(i, j), product);
    WrittenTerm(m, u, v, i, j, pointer.transposed, product);
    AddPairTerm(st, ms, np, k, u, v, Min(i, j), Max(i, j), product);
    PresentAfter(st, np, Min(i, j), Max(i, j), product);
    StaysReady(m.ends, edge.hessian, st, StoreOf(solver), np, n);
  }

  lemma PointerOfPair(ends: seq<Option<nat>>, hessian: seq<Pointer>, st: Store, np: nat, n: nat, u: nat, v: nat)
    requires Supported(ends, np, n) && EdgeMapped(ends, hessian, st, np) && u < v < |ends| && ends[u].Some? && ends[v].Some?
    ensures PairMapped(ends, hessian, st, np, u, v)
    ensures var i, j := ends[u].value, ends[v].value;
            && i != j && 0 <= PairToIndex(u, v) < |hessian| && hessian[PairToIndex(u, v)] == Expected(np, i, j)
            && Min(i, j) < np && Present(st, np, Min(i, j), Max(i, j))
  {
    hide Present;
  }

  /** The diagonal block and the right hand side of one free vertex. */
  method AddVertex(solver: BlockSolver, edge: Edge, m: Measurement, np: nat, u: nat, AtO: Matrix, vs: seq<Graph.Vertex>,
                   ghost ms: seq<Measurement>, ghost k: nat)
    requires EdgeReady(solver, edge, np, |vs|, ms, k) && m == ms[k] && u < |m.ends| && m.ends[u].Some? && Graph.Distinct(vs)
    requires AtO == MatMul(m.dimension, Transpose(m.jacobians[u]), m.information)
    requires Partial(StoreOf(solver), ms, np, k, u, u) && GradientUpTo(Graph.RightHandSides(vs), ms, k, u)
    modifies solver.Hpp, solver.Hll, vs`rhs
    ensures SamePattern(old(StoreOf(solver)), StoreOf(solver), np)
    ensures EdgeReady(solver, edge, np, |vs|, ms, k)
    ensures Partial(StoreOf(solver), ms, np, k, u, u + 1) && GradientUpTo(Graph.RightHandSides(vs), ms, k, u + 1)
  {
    hide Partial, EdgeMapped, GradientUpTo, StoreOf, DiagonalPresent, SamePattern, Graph.Distinct;
    AddShare(vs, m, u, ms, k);
    AddOwnBlock(solver, edge, m, np, u, AtO, |vs|, ms, k);
  }

  method AddOwnBlock(solver: BlockSolver, edge: Edge, m: Measurement, np: nat, u: nat, AtO: Matrix,
                     ghost n: nat, ghost ms: seq<Measurement>, ghost k: nat)
    requires EdgeReady(solver, edge, np, n, ms, k) && m == ms[k] && u < |m.ends| && m.ends[u].Some?
    requires AtO == MatMul(m.dimension, Transpose(m.jacobians[u]), m.information)
    requires Partial(StoreOf(solver), ms, np, k, u, u)
    modifies solver.Hpp, solver.Hll
    ensures SamePattern(old(StoreOf(solver)), StoreOf(solver), np)
    ensures EdgeReady(solver, edge, np, n, ms, k) && Partial(StoreOf(solver), ms, np, k, u, u + 1)
  {
    hide Partial, Present, EdgeMapped, Sandwich;
    var i, A := m.ends[u].value, m.jacobians[u];
    var product := MatMul(m.dimension, AtO, A);
    ghost var st := StoreOf(solver);
    AddDiagonal(solver, np, i, product);
    WrittenTerm(m, u, u, i, i, false, product);
    AddPairTerm(st, ms, np, k, u, u, i, i, product);
    PresentAfter(st, np, i, i, product);
    StaysReady(m.ends, edge.hessian, st, StoreOf(solver), np, n);
  }

  /** The vertex at slot u gains the edge's part of the right hand side. */
  method AddShare(vs: seq<Graph.Vertex>, m: Measurement, u: nat, ghost ms: seq<Measurement>, ghost k: nat)
    requires Graph.Distinct(vs) && k < |ms| && m == ms[k] && ValidMeasurement(m)
    requires u < |m.ends| && m.ends[u].Some? && m.ends[u].value < |vs|
    requires GradientUpTo(Graph.RightHandSides(vs), ms, k, u)
    modifies vs`rhs
    ensures GradientUpTo(Graph.RightHandSides(vs), ms, k, u + 1)
  {
    hide GradientUpTo;
    ghost var before := Graph.RightHandSides(vs);
    var i := m.ends[u].value;
    var share := MatVec(m.dimension, Transpose(m.jacobians[u]), WeightedError(m));
    vs[i].rhs := PlusVector(vs[i].rhs, share);
    assert Graph.RightHandSides(vs) == before[i := PlusVector(before[i], share)];
    ShareIsTerm(m, u);
    AddGradientTerm(before, ms, k, u, i, PlusVector(before[i], share));
  }

  lemma ShareIsTerm(m: Measurement, u: nat)
    requires ValidMeasurement(m) && u < |m.ends| && m.ends[u].Some?
    ensures MatVec(m.dimension, Transpose(m.jacobians[u]), WeightedError(m)) == GradientTerm(m, m.ends[u].value)
  {
    SlotOf(m, u);
  }

  function PlusVector(x: Vector, y: Vector): Vector {
    a => x(a) + y(a)
  }

  /** One edge: all blocks of its free vertices and of their pairs. Fixed vertices are left out. */
  method ConstructQuadraticForm(solver: BlockSolver, edge: Edge, m: Measurement, np: nat, vs: seq<Graph.Vertex>,
                                ghost ms: seq<Measurement>, ghost k: nat)
    requires EdgeReady(solver, edge, np, |vs|, ms, k) && m == ms[k] && Graph.Distinct(vs)
    requires Complete(StoreOf(solver), ms, np, k) && GradientUpTo(Graph.RightHandSides(vs), ms, k, 0)
    modifies solver.Hpp, solver.Hpl, solver.Hll, vs`rhs
    ensures SamePattern(old(StoreOf(solver)), StoreOf(solver), np)
    ensures EdgeReady(solver, edge, np, |vs|, ms, k)
    ensures Complete(StoreOf(solver), ms, np, k + 1) && GradientUpTo(Graph.RightHandSides(vs), ms, k + 1, 0)
  {
    hide *;
    ghost var st := StoreOf(solver);
    ReadyInRange(solver, edge, np, |vs|, ms, k);
    SameToStart(st, np);
    StartEdge(StoreOf(solver), ms, np, k);
    for u := 0 to |m.ends|
      invariant EdgeReady(solver, edge, np, |vs|, ms, k)
      invariant Partial(StoreOf(solver), ms, np, k, u, u) && GradientUpTo(Graph.RightHandSides(vs), ms, k, u)
      invariant SamePattern(st, StoreOf(solver), np)
    {
      ghost var mid := StoreOf(solver);
      AddSlot(solver, edge, m, np, u, vs, ms, k);
      PatternsChain(st, mid, StoreOf(solver), np);
    }
    FinishEdge(StoreOf(solver), ms, np, k);
    FinishGradient(Graph.RightHandSides(vs), ms, k);
  }

  lemma ReadyInRange(solver: BlockSolver, edge: Edge, np: nat, n: nat, ms: seq<Measurement>, k: nat)
    requires EdgeReady(solver, edge, np, n, ms, k)
    ensures k < |ms|
  {
  }

  lemma SameToStart(st: Store, np: nat)
    ensures SamePattern(st, st, np)
  {
  }

  method AddSlot(solver: BlockSolver, edge: Edge, m: Measurement, np: nat, u: nat, vs: seq<Graph.Vertex>,
                 ghost ms: seq<Measurement>, ghost k: nat)
    requires EdgeReady(solver, edge, np, |vs|, ms, k) && m == ms[k] && u < |m.ends| && Graph.Distinct(vs)
    requires Partial(StoreOf(solver), ms, np, k, u, u) && GradientUpTo(Graph.RightHandSides(vs), ms, k, u)
    modifies solver.Hpp, solver.Hpl, solver.Hll, vs`rhs
    ensures SamePattern(old(StoreOf(solver)), StoreOf(solver), np)
    ensures EdgeReady(solver, edge, np, |vs|, ms, k)
    ensures Partial(StoreOf(solver), ms, np, k, u + 1, u + 1) && GradientUpTo(Graph.RightHandSides(vs), ms, k, u + 1)
  {
    hide Partial, GradientUpTo, StoreOf, EdgeMapped, DiagonalPresent, PairDone, Present;
    if m.ends[u] == None {
      forall i: nat, j: nat ensures PairDone(m.ends, i, j, u + 1, u + 1) <==> PairDone(m.ends, i, j, u, u) {
        FixedFirst(m, u, i, j);
      }
      SkipSlots(StoreOf(solver), ms, np, k, u, u, u + 1, u + 1);
      SkipGradient(Graph.RightHandSides(vs), ms, k, u);
      return;
    }
    var AtO := MatMul(m.dimension, Transpose(m.jacobians[u]), m.information);
    ghost var st := StoreOf(solver);
    AddVertex(solver, edge, m, np, u, AtO, vs, ms, k);
    ghost var mid := StoreOf(solver);
    AddRow(solver, edge, m, np, u, AtO, |vs|, ms, k);
    PatternsChain(st, mid, StoreOf(solver), np);
    forall i: nat, j: nat ensures PairDone(m.ends, i, j, u + 1, u + 1) <==> PairDone(m.ends, i, j, u, |m.ends|) {
      RowEnds(m, u, i, j);
    }
    SkipSlots(StoreOf(solver), ms, np, k, u, |m.ends|, u + 1, u + 1);
  }

  /** The pairs of a free vertex with those at later slots. */
  method AddRow(solver: BlockSolver, edge: Edge, m: Measurement, np: nat, u: nat, AtO: Matrix,
                ghost n: nat, ghost ms: seq<Measurement>, ghost k: nat)
    requires EdgeReady(solver, edge, np, n, ms, k) && m == ms[k] && u < |m.ends| && m.ends[u].Some?
    requires AtO == MatMul(m.dimension, Transpose(m.jacobians[u]), m.information)
    requires Partial(StoreOf(solver), ms, np, k, u, u + 1)
    modifies solver.Hpp, solver.Hpl
    ensures SamePattern(old(StoreOf(solver)), StoreOf(solver), np)
    ensures EdgeReady(solver, edge, np, n, ms, k) && Partial(StoreOf(solver), ms, np, k, u, |m.ends|)
  {
    hide Partial, StoreOf, EdgeMapped, DiagonalPresent, PairDone, Present;
    ghost var st := StoreOf(solver);
    for v := u + 1 to |m.ends|
      invariant EdgeReady(solver, edge, np, n, ms, k) && Partial(StoreOf(solver), ms, np, k, u, v)
      invariant SamePattern(st, StoreOf(solver), np)
    {
      if m.ends[v].Some? {
        ghost var mid := StoreOf(solver);
        AddPair(solver, edge, m, np, u, v, AtO, n, ms, k);
        PatternsChain(st, mid, StoreOf(solver), np);
      } else {
        forall i: nat, j: nat ensures PairDone(m.ends, i, j, u, v + 1) <==> PairDone(m.ends, i, j, u, v) {
          FixedSecond(m, u, v, i, j);
        }
        SkipSlots(StoreOf(solver), ms, np, k, u, v, u, v + 1);
      }
    }
  }
}
