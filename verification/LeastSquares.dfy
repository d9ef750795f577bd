/** The assembled block system is the dense system of normal equations, and solving it solves them. */
module LeastSquares {
  import opened Sums
  import opened LinearAlgebra
  import opened BlockLayout
  import opened CompressedViews
  import opened SparseBlocks
  import opened QuadraticModel
  import opened DampedNewton
  import NormalEquations
  import opened QuadraticForms
  import opened SchurComplement
  import opened DiagonalBlocks
  import opened SchurElimination
  import opened BlockSolver
  import opened SystemStore
  import opened SystemAssembly
  import Graph = GraphOptimizer

  /** The coordinates of all free vertices: np poses, then the landmarks. */
  ghost predicate Layouts(all: seq<nat>, np: nat, poseEnds: seq<nat>, landmarkEnds: seq<nat>) {
    && Monotone(all) && np <= |all| && poseEnds == all[..np] && |landmarkEnds| == |all| - np
    && forall l :: 0 <= l < |landmarkEnds| ==> landmarkEnds[l] + Size(poseEnds) == all[np + l]
  }

  // ----- The layouts that the index mapping gives

  /** The layout of all vertices is the poses' followed by the landmarks'. */
  lemma MappingGivesLayouts(ivMap: seq<Graph.Vertex>)
    requires Graph.PosesFirst(ivMap)
    ensures Layouts(Graph.Ends(ivMap), |Graph.PartEnds(ivMap, |ivMap|, false)|, Graph.PartEnds(ivMap, |ivMap|, false),
                    Graph.PartEnds(ivMap, |ivMap|, true))
    ensures Size(Graph.PartEnds(ivMap, |ivMap|, false)) == Graph.PartSize(ivMap, |ivMap|, false)
  {
    hide Graph.Offset, Graph.PartEnds, Graph.PartSize, Size;
    EndsMonotone(ivMap);
    PartsFollow(ivMap, |ivMap|);
  }

  lemma EndsMonotone(ivMap: seq<Graph.Vertex>)
    ensures Monotone(Graph.Ends(ivMap))
  {
    hide Graph.Offset;
    forall i, j | 0 <= i < j < |ivMap| ensures Graph.Ends(ivMap)[i] <= Graph.Ends(ivMap)[j] {
      Graph.OffsetMonotone(ivMap, i + 1, j + 1);
    }
  }

  /** Among the first i vertices the k-th pose is the k-th vertex, and the l-th landmark comes after all poses. */
  ghost predicate PartsInPlace(ivMap: seq<Graph.Vertex>, i: nat, poseEnds: seq<nat>, landmarkEnds: seq<nat>)
    requires i <= |ivMap|
  {
    && |poseEnds| + |landmarkEnds| == i && Size(poseEnds) == Graph.PartSize(ivMap, i, false)
    && (forall k :: 0 <= k < |poseEnds| ==> poseEnds[k] == Graph.Offset(ivMap, k + 1))
    && (forall l :: 0 <= l < |landmarkEnds| ==> landmarkEnds[l] + Size(poseEnds) == Graph.Offset(ivMap, |poseEnds| + l + 1))
    && (|landmarkEnds| > 0 ==> exists k :: 0 <= k < i && ivMap[k].marginalized)
  }

  lemma {:induction false} PartsFollow(ivMap: seq<Graph.Vertex>, i: nat)
    requires Graph.PosesFirst(ivMap) && i <= |ivMap|
    ensures PartsInPlace(ivMap, i, Graph.PartEnds(ivMap, i, false), Graph.PartEnds(ivMap, i, true))
  {
    hide Graph.Offset, Graph.PartSize, Graph.PartEnds;
    Graph.NoPartYet(ivMap, false);
    Graph.NoPartYet(ivMap, true);
    if i > 0 {
      var poseEnds, landmarkEnds := Graph.PartEnds(ivMap, i - 1, false), Graph.PartEnds(ivMap, i - 1, true);
      PartsFollow(ivMap, i - 1);
      Graph.PartGrows(ivMap, i - 1, false);
      Graph.PartGrows(ivMap, i - 1, true);
      Graph.PartsMakeWhole(ivMap, i);
      if ivMap[i - 1].marginalized {
        NextLandmarkEnd(ivMap, i, poseEnds, landmarkEnds);
      } else {
        Graph.NoLandmarksYet(ivMap, i);
        NextPoseEnd(ivMap, i, poseEnds, landmarkEnds);
      }
    }
  }

  lemma NextLandmarkEnd(ivMap: seq<Graph.Vertex>, i: nat, poseEnds: seq<nat>, landmarkEnds: seq<nat>)
    requires 0 < i <= |ivMap| && PartsInPlace(ivMap, i - 1, poseEnds, landmarkEnds) && ivMap[i - 1].marginalized
    requires Graph.PartSize(ivMap, i, false) == Graph.PartSize(ivMap, i - 1, false)
    requires Graph.PartSize(ivMap, i, false) + Graph.PartSize(ivMap, i, true) == Graph.Offset(ivMap, i)
    ensures PartsInPlace(ivMap, i, poseEnds, landmarkEnds + [Graph.PartSize(ivMap, i, true)])
  {
    hide Graph.Offset, Graph.PartSize, Size;
  }

  lemma NextPoseEnd(ivMap: seq<Graph.Vertex>, i: nat, poseEnds: seq<nat>, landmarkEnds: seq<nat>)
    requires 0 < i <= |ivMap| && PartsInPlace(ivMap, i - 1, poseEnds, landmarkEnds)
    requires forall k :: 0 <= k < i ==> !ivMap[k].marginalized
    requires Graph.PartSize(ivMap, i, false) == Graph.Offset(ivMap, i)
    ensures PartsInPlace(ivMap, i, poseEnds + [Graph.PartSize(ivMap, i, false)], landmarkEnds)
  {
    hide Graph.Offset, Graph.PartSize;
    assert landmarkEnds == [];
  }

  /** The solver's layouts and the vertices' columns are those of the index mapping. */
  ghost predicate Arranged(solver: BlockSolver, optimizer: Graph.SparseOptimizer, np: nat)
    reads optimizer, optimizer.ivMap`colInHessian
  {
    var ivMap := optimizer.ivMap;
    && Graph.Distinct(ivMap) && Graph.PosesFirst(ivMap) && np == |solver.Hpp.rowBlockIndices|
    && solver.Hpp.rowBlockIndices == Graph.PartEnds(ivMap, |ivMap|, false)
    && solver.Hll.colBlockIndices == Graph.PartEnds(ivMap, |ivMap|, true)
    && forall i :: 0 <= i < |ivMap| ==> Graph.ColumnAssigned(ivMap, i)
  }

  lemma ArrangedLayouts(solver: BlockSolver, optimizer: Graph.SparseOptimizer, np: nat)
    requires Arranged(solver, optimizer, np)
    ensures Layouts(Graph.Ends(optimizer.ivMap), np, solver.Hpp.rowBlockIndices, solver.Hll.colBlockIndices)
    ensures Size(solver.Hpp.rowBlockIndices) == Graph.PartSize(optimizer.ivMap, |optimizer.ivMap|, false)
    ensures Size(Graph.Ends(optimizer.ivMap)) == Graph.Offset(optimizer.ivMap, |optimizer.ivMap|)
    ensures Graph.Distinct(optimizer.ivMap) && np <= |optimizer.ivMap|
    ensures |solver.Hpp.rowBlockIndices| == np && |solver.Hll.colBlockIndices| == |optimizer.ivMap| - np
  {
    MappingGivesLayouts(optimizer.ivMap);
  }

  lemma PosePlace(all: seq<nat>, np: nat, poseEnds: seq<nat>, landmarkEnds: seq<nat>, i: nat, p: int)
    requires Layouts(all, np, poseEnds, landmarkEnds) && Within(poseEnds, i, p)
    ensures Within(all, i, p) && Base(all, i) == Base(poseEnds, i) && i < np
  {
  }

  lemma LandmarkPlace(all: seq<nat>, np: nat, poseEnds: seq<nat>, landmarkEnds: seq<nat>, l: nat, k: int)
    requires Layouts(all, np, poseEnds, landmarkEnds) && Within(landmarkEnds, l, k)
    ensures Within(all, np + l, Size(poseEnds) + k) && Base(all, np + l) == Size(poseEnds) + Base(landmarkEnds, l)
  {
    if l > 0 {
      assert landmarkEnds[l - 1] + Size(poseEnds) == all[np + (l - 1)];
    }
  }

  lemma TotalSize(all: seq<nat>, np: nat, poseEnds: seq<nat>, landmarkEnds: seq<nat>)
    requires Layouts(all, np, poseEnds, landmarkEnds)
    ensures Size(all) == Size(poseEnds) + Size(landmarkEnds)
  {
    if |landmarkEnds| > 0 {
      assert landmarkEnds[|landmarkEnds| - 1] + Size(poseEnds) == all[np + (|landmarkEnds| - 1)];
    }
  }

  /** The edges linearised at the given estimates. */
  ghost function Measurements(edges: seq<Edge>, s: seq<Graph.Estimate>): (ms: seq<Measurement>)
    ensures |ms| == |edges| && forall k :: 0 <= k < |edges| ==> ms[k] == edges[k].linearize(s)
  {
    seq(|edges|, k requires 0 <= k < |edges| => edges[k].linearize(s))
  }

  lemma MeasurementsValid(edges: seq<Edge>, s: seq<Graph.Estimate>)
    requires forall k :: 0 <= k < |edges| ==> edges[k].Valid()
    ensures AllValid(Measurements(edges, s))
  {
    forall k | 0 <= k < |edges| ensures ValidMeasurement(Measurements(edges, s)[k]) {
      assert edges[k].Valid();
    }
  }

  /** What buildStructure leaves behind: every pair of free vertices of every edge has its block. */
  ghost predicate Structured(edges: seq<Edge>, st: Store, np: nat, n: nat)
    reads edges
  {
    && DiagonalPresent(st, np, n)
    && forall k :: 0 <= k < |edges| ==>
        edges[k].Valid() && Supported(edges[k].ends, np, n) && EdgeMapped(edges[k].ends, edges[k].hessian, st, np)
  }

  lemma StaysStructured(edges: seq<Edge>, st: Store, st': Store, np: nat, n: nat)
    requires Structured(edges, st, np, n) && SamePattern(st, st', np)
    ensures Structured(edges, st', np, n)
  {
    hide EdgeMapped, DiagonalPresent, SamePattern, Supported;
    forall k | 0 <= k < |edges| ensures EdgeMapped(edges[k].ends, edges[k].hessian, st', np) && DiagonalPresent(st', np, n) {
      StaysReady(edges[k].ends, edges[k].hessian, st, st', np, n);
    }
    KeepsDiagonal(st, st', np, n);
  }

  lemma KeepsDiagonal(st: Store, st': Store, np: nat, n: nat)
    requires DiagonalPresent(st, np, n) && SamePattern(st, st', np)
    ensures DiagonalPresent(st', np, n)
  {
    hide Present;
  }

  method ClearBlocks(solver: BlockSolver, np: nat, ghost ms: seq<Measurement>)
    requires solver.Shapes()
    modifies solver.Hpp, solver.Hpl, solver.Hll
    ensures solver.Shapes() && SamePattern(old(StoreOf(solver)), StoreOf(solver), np)
    ensures Complete(StoreOf(solver), ms, np, 0)
  {
    ghost var st := StoreOf(solver);
    solver.Hpp.Clear(false);
    solver.Hll.Clear(false);
    solver.Hpl.Clear(false);
    Cleared(st, StoreOf(solver), np, ms);
  }

  ghost predicate AllZeroed(before: BlockColumns, after: BlockColumns) {
    |after| == |before| && forall c :: 0 <= c < |after| ==> after[c] == Zeroed(before[c])
  }

  lemma Cleared(st: Store, st': Store, np: nat, ms: seq<Measurement>)
    requires AllZeroed(st.hpp, st'.hpp) && AllZeroed(st.hpl, st'.hpl) && AllZeroed(st.hll, st'.hll)
    ensures SamePattern(st, st', np) && Complete(st', ms, np, 0)
  {
    hide BlockTerms;
    forall i: nat, j: nat, a, b | i <= j ensures CompleteEntry(st', ms, np, 0, i, j, a, b) {
    }
  }

  /** Builds all blocks and the right hand side from the edges, linearised at the present estimates. */
  method BuildSystem(solver: BlockSolver, optimizer: Graph.SparseOptimizer, edges: seq<Edge>, np: nat)
    requires solver.Shapes() && solver.Buffers() && Arranged(solver, optimizer, np)
    requires Structured(edges, StoreOf(solver), np, |optimizer.ivMap|) && solver.Views() && DiagonalOnly(solver.Hll.blockCols)
    modifies solver.Hpp, solver.Hpl, solver.Hll, solver.b, optimizer.ivMap`rhs
    ensures solver.Views() && DiagonalOnly(solver.Hll.blockCols)
    ensures solver.Shapes() && SamePattern(old(StoreOf(solver)), StoreOf(solver), np)
    ensures Structured(edges, StoreOf(solver), np, |optimizer.ivMap|)
    ensures Complete(StoreOf(solver), Measurements(edges, Graph.Estimates(optimizer.activeVertices)), np, |edges|)
    ensures IsRightHandSide(solver.b, Size(Graph.Ends(optimizer.ivMap)),
                            Gradient(Measurements(edges, Graph.Estimates(optimizer.activeVertices)), Graph.Ends(optimizer.ivMap)))
  {
    hide *;
    ArrangedLayouts(solver, optimizer, np);
    var estimates := Graph.Estimates(optimizer.activeVertices);
    optimizer.ClearQuadraticForms();
    BuildBlocks(solver, edges, np, optimizer.ivMap, estimates);
    CopyB(solver, optimizer, np, Measurements(edges, estimates));
  }

  ghost predicate IsRightHandSide(b: array<real>, n: nat, g: Vector)
    reads b
  {
    b.Length == n && forall p :: 0 <= p < n ==> b[p] == g(p)
  }

  method BuildBlocks(solver: BlockSolver, edges: seq<Edge>, np: nat, vs: seq<Graph.Vertex>, estimates: seq<Graph.Estimate>)
    requires solver.Shapes() && Structured(edges, StoreOf(solver), np, |vs|) && Graph.Distinct(vs)
    requires np == |solver.Hpp.rowBlockIndices| && solver.Views() && DiagonalOnly(solver.Hll.blockCols)
    requires forall i :: 0 <= i < |vs| ==> vs[i].rhs == Graph.ZeroVector()
    modifies solver.Hpp, solver.Hpl, solver.Hll, vs`rhs
    ensures solver.Shapes() && SamePattern(old(StoreOf(solver)), StoreOf(solver), np)
    ensures solver.Views() && DiagonalOnly(solver.Hll.blockCols)
    ensures Structured(edges, StoreOf(solver), np, |vs|)
    ensures Complete(StoreOf(solver), Measurements(edges, estimates), np, |edges|)
    ensures GradientUpTo(Graph.RightHandSides(vs), Measurements(edges, estimates), |edges|, 0)
  {
    hide Complete, Structured, SamePattern, IsView, PatternComplete, GradientUpTo;
    ghost var st := StoreOf(solver);
    ClearAndSum(solver, edges, np, vs, estimates);
    PatternKeepsViews(st, StoreOf(solver), np, solver.HplCCS, solver.HschurTransposedCCS);
  }

  method ClearAndSum(solver: BlockSolver, edges: seq<Edge>, np: nat, vs: seq<Graph.Vertex>, estimates: seq<Graph.Estimate>)
    requires solver.Shapes() && Structured(edges, StoreOf(solver), np, |vs|) && Graph.Distinct(vs)
    requires forall i :: 0 <= i < |vs| ==> vs[i].rhs == Graph.ZeroVector()
    modifies solver.Hpp, solver.Hpl, solver.Hll, vs`rhs
    ensures solver.Shapes() && SamePattern(old(StoreOf(solver)), StoreOf(solver), np)
    ensures Structured(edges, StoreOf(solver), np, |vs|)
    ensures Complete(StoreOf(solver), Measurements(edges, estimates), np, |edges|)
    ensures GradientUpTo(Graph.RightHandSides(vs), Measurements(edges, estimates), |edges|, 0)
  {
    hide Complete, StoreOf, Structured, SamePattern, GradientUpTo;
    ghost var st, ms := StoreOf(solver), Measurements(edges, estimates);
    ClearBlocks(solver, np, ms);
    ghost var cleared := StoreOf(solver);
    StaysStructured(edges, st, cleared, np, |vs|);
    ZeroVectors(Graph.RightHandSides(vs), ms);
    SumEdges(solver, edges, np, vs, estimates);
    PatternsChain(st, cleared, StoreOf(solver), np);
    StaysStructured(edges, st, StoreOf(solver), np, |vs|);
  }

  /** Views and the shape of the landmark part depend on the pattern alone. */
  lemma PatternKeepsViews(st: Store, st': Store, np: nat, view: seq<Column>, schurView: seq<Column>)
    requires SamePattern(st, st', np) && |st.hpl| == |st'.hpl| && |st.hll| == |st'.hll|
    requires PoseRows(st.hpl, np) && PoseRows(st'.hpl, np)
    ensures IsView(view, st.hpl) ==> IsView(view, st'.hpl)
    ensures PatternComplete(schurView, st.hpl) ==> PatternComplete(schurView, st'.hpl)
    ensures DiagonalOnly(st.hll) ==> DiagonalOnly(st'.hll)
  {
    SameRows(st, st', np);
    if IsView(view, st.hpl) {
      forall c | 0 <= c < |st'.hpl| ensures ColumnView(view[c], st'.hpl, c) {
        assert ColumnView(view[c], st.hpl, c);
      }
    }
  }

  ghost predicate PoseRows(hpl: BlockColumns, np: nat) {
    forall c, r :: 0 <= c < |hpl| && r in hpl[c] ==> r < np
  }

  lemma SameRows(st: Store, st': Store, np: nat)
    requires SamePattern(st, st', np) && |st.hpl| == |st'.hpl| && |st.hll| == |st'.hll|
    requires PoseRows(st.hpl, np) && PoseRows(st'.hpl, np)
    ensures forall c: nat, r: nat :: c < |st.hpl| ==> (r in st'.hpl[c] <==> r in st.hpl[c])
    ensures forall c: nat, r: nat :: c < |st.hll| ==> (r in st'.hll[c] <==> r in st.hll[c])
  {
    forall c: nat, r: nat | c < |st.hpl| ensures r in st'.hpl[c] <==> r in st.hpl[c] {
      if r < np {
        assert Present(st', np, r, np + c) <==> Present(st, np, r, np + c);
      }
    }
    forall c: nat, r: nat | c < |st.hll| ensures r in st'.hll[c] <==> r in st.hll[c] {
      assert Present(st', np, np + r, np + c) <==> Present(st, np, np + r, np + c);
    }
  }

  method SumEdges(solver: BlockSolver, edges: seq<Edge>, np: nat, vs: seq<Graph.Vertex>, estimates: seq<Graph.Estimate>)
    requires solver.Shapes() && Structured(edges, StoreOf(solver), np, |vs|) && Graph.Distinct(vs)
    requires Complete(StoreOf(solver), Measurements(edges, estimates), np, 0)
    requires GradientUpTo(Graph.RightHandSides(vs), Measurements(edges, estimates), 0, 0)
    modifies solver.Hpp, solver.Hpl, solver.Hll, vs`rhs
    ensures solver.Shapes() && SamePattern(old(StoreOf(solver)), StoreOf(solver), np)
    ensures Complete(StoreOf(solver), Measurements(edges, estimates), np, |edges|)
    ensures GradientUpTo(Graph.RightHandSides(vs), Measurements(edges, estimates), |edges|, 0)
  {
    hide Complete, StoreOf, Structured, SamePattern, GradientUpTo, Edge.Valid;
    ghost var st, ms := StoreOf(solver), Measurements(edges, estimates);
    SameToStart(st, np);
    for k := 0 to |edges|
      invariant solver.Shapes() && Structured(edges, StoreOf(solver), np, |vs|)
      invariant SamePattern(st, StoreOf(solver), np)
      invariant Complete(StoreOf(solver), ms, np, k) && GradientUpTo(Graph.RightHandSides(vs), ms, k, 0)
    {
      ghost var mid := StoreOf(solver);
      EdgeIsReady(solver, edges, np, |vs|, k, estimates);
      ConstructQuadraticForm(solver, edges[k], edges[k].linearize(estimates), np, vs, ms, k);
      ReadyHasShapes(solver, edges[k], np, |vs|, ms, k);
      StaysStructured(edges, mid, StoreOf(solver), np, |vs|);
      PatternsChain(st, mid, StoreOf(solver), np);
    }
  }

  lemma EdgeIsReady(solver: BlockSolver, edges: seq<Edge>, np: nat, n: nat, k: nat, estimates: seq<Graph.Estimate>)
    requires solver.Shapes() && Structured(edges, StoreOf(solver), np, n) && k < |edges|
    ensures EdgeReady(solver, edges[k], np, n, Measurements(edges, estimates), k)
  {
    hide EdgeMapped, DiagonalPresent, Supported;
    assert edges[k].Valid();
  }

  lemma ReadyHasShapes(solver: BlockSolver, edge: Edge, np: nat, n: nat, ms: seq<Measurement>, k: nat)
    requires EdgeReady(solver, edge, np, n, ms, k)
    ensures solver.Shapes()
  {
  }

  lemma ZeroVectors(rhs: seq<Vector>, ms: seq<Measurement>)
    requires forall i :: 0 <= i < |rhs| ==> rhs[i] == Graph.ZeroVector()
    ensures GradientUpTo(rhs, ms, 0, 0)
  {
    forall i: nat, a | i < |rhs| ensures GradientEntry(rhs, ms, 0, 0, i, a) {
      assert rhs[i](a) == 0.0;
    }
  }

  /** Copies the vertices' parts of the right hand side to their columns. */
  method CopyB(solver: BlockSolver, optimizer: Graph.SparseOptimizer, np: nat, ghost ms: seq<Measurement>)
    requires solver.Shapes() && solver.Buffers() && Arranged(solver, optimizer, np)
    requires GradientUpTo(Graph.RightHandSides(optimizer.ivMap), ms, |ms|, 0)
    modifies solver.b
    ensures IsRightHandSide(solver.b, Size(Graph.Ends(optimizer.ivMap)), Gradient(ms, Graph.Ends(optimizer.ivMap)))
  {
    hide GradientUpTo, Gradient, Graph.Copied, Layouts;
    ghost var all := Graph.Ends(optimizer.ivMap);
    ArrangedLayouts(solver, optimizer, np);
    TotalSize(all, np, solver.Hpp.rowBlockIndices, solver.Hll.colBlockIndices);
    optimizer.CopyB(solver.b, Size(solver.Hpp.rowBlockIndices));
    forall p | 0 <= p < Size(all) ensures solver.b[p] == Gradient(ms, all)(p) {
      CopiedEntry(optimizer.ivMap, solver.b, ms, p);
    }
  }

  lemma CopiedEntry(ivMap: seq<Graph.Vertex>, b: array<real>, ms: seq<Measurement>, p: int)
    requires GradientUpTo(Graph.RightHandSides(ivMap), ms, |ms|, 0) && 0 <= p < Size(Graph.Ends(ivMap)) == b.Length
    requires forall i :: 0 <= i < |ivMap| ==> Graph.Copied(ivMap, i, b)
    ensures b[p] == Gradient(ms, Graph.Ends(ivMap))(p)
  {
    hide *;
    var i, t := SliceOf(ivMap, p);
    GradientInSlice(ivMap, Graph.RightHandSides(ivMap), ms, i, t, p);
    CopiedAt(ivMap, i, b, t, p);
  }

  /** The vertex whose slice holds coordinate p. */
  lemma SliceOf(ivMap: seq<Graph.Vertex>, p: int) returns (i: nat, t: nat)
    requires 0 <= p < Size(Graph.Ends(ivMap))
    ensures i < |ivMap| && t < ivMap[i].dimension && p == Graph.Offset(ivMap, i) + t
  {
    var all := Graph.Ends(ivMap);
    BlockOfWithin(all, p);
    i := BlockOf(all, p);
    t := p - Base(all, i);
    assert Graph.Offset(ivMap, i + 1) == Graph.Offset(ivMap, i) + ivMap[i].dimension;
  }

  lemma GradientInSlice(ivMap: seq<Graph.Vertex>, rhs: seq<Vector>, ms: seq<Measurement>, i: nat, t: nat, p: int)
    requires |rhs| == |ivMap| && GradientUpTo(rhs, ms, |ms|, 0)
    requires i < |ivMap| && t < ivMap[i].dimension && p == Graph.Offset(ivMap, i) + t
    ensures rhs[i](t) == Gradient(ms, Graph.Ends(ivMap))(p)
  {
    hide GradientUpTo, Gradient;
    var all := Graph.Ends(ivMap);
    EndsMonotone(ivMap);
    assert Base(all, i) == Graph.Offset(ivMap, i) && all[i] == Graph.Offset(ivMap, i) + ivMap[i].dimension;
    VertexGradient(rhs, i, p, all, ms);
  }

  lemma CopiedAt(ivMap: seq<Graph.Vertex>, i: nat, b: array<real>, t: nat, p: int)
    requires i < |ivMap| && Graph.Copied(ivMap, i, b) && t < ivMap[i].dimension && p == Graph.Offset(ivMap, i) + t
    ensures p < b.Length && b[p] == Graph.RightHandSides(ivMap)[i](t)
  {
    hide Graph.Offset;
  }

  lemma VertexGradient(rhs: seq<Vector>, i: nat, p: int, all: seq<nat>, ms: seq<Measurement>)
    requires Monotone(all) && i < |all| == |rhs| && GradientUpTo(rhs, ms, |ms|, 0) && Within(all, i, p)
    ensures rhs[i](p - Base(all, i)) == Gradient(ms, all)(p)
  {
    GradientBlock(ms, all, i, p);
    assert GradientEntry(rhs, ms, |ms|, 0, i, p - Base(all, i));
  }

  // ----- The blocks denote the dense matrix

  /** The stored blocks are the upper triangle of blocks of H. */
  ghost predicate Holds(st: Store, np: nat, all: seq<nat>, H: Matrix) {
    forall i: nat, p, j: nat, q :: Within(all, i, p) && Within(all, j, q) && i <= j ==> HoldsAt(st, np, all, H, i, p, j, q)
  }

  ghost predicate HoldsAt(st: Store, np: nat, all: seq<nat>, H: Matrix, i: nat, p: int, j: nat, q: int) {
    StoredEntry(st, np, i, j, p - Base(all, i), q - Base(all, j)) == H(p, q)
  }

  ghost predicate AllValid(ms: seq<Measurement>) {
    forall e :: 0 <= e < |ms| ==> ValidMeasurement(ms[e])
  }

  /** After assembly the blocks are those of the Hessian of all edges. */
  lemma AssembledHolds(st: Store, ms: seq<Measurement>, np: nat, all: seq<nat>)
    requires Complete(st, ms, np, |ms|) && Monotone(all)
    ensures Holds(st, np, all, Hessian(ms, all))
  {
    hide StoredEntry, Within, Base, Hessian, BlockTerms;
    forall i: nat, p, j: nat, q | Within(all, i, p) && Within(all, j, q) && i <= j
      ensures HoldsAt(st, np, all, Hessian(ms, all), i, p, j, q)
    {
      HessianBlock(ms, all, i, p, j, q);
      assert CompleteEntry(st, ms, np, |ms|, i, j, p - Base(all, i), q - Base(all, j));
    }
  }

  lemma AllSymmetric(n: nat, ms: seq<Measurement>, all: seq<nat>)
    requires AllValid(ms)
    ensures SymmetricMatrix(n, Hessian(ms, all))
  {
    hide Hessian;
    forall p, q | 0 <= p < n && 0 <= q < n ensures Hessian(ms, all)(p, q) == Hessian(ms, all)(q, p) {
      HessianSymmetric(ms, all, p, q);
    }
  }

  /** What a store of H for the given layouts looks like. */
  ghost predicate Stores(st: Store, np: nat, all: seq<nat>, poseEnds: seq<nat>, landmarkEnds: seq<nat>, H: Matrix) {
    Holds(st, np, all, H) && Layouts(all, np, poseEnds, landmarkEnds) && SymmetricMatrix(Size(all), H)
  }

  lemma StoredAt(st: Store, np: nat, all: seq<nat>, poseEnds: seq<nat>, landmarkEnds: seq<nat>, H: Matrix,
                 i: nat, p: int, j: nat, q: int)
    requires Stores(st, np, all, poseEnds, landmarkEnds, H) && Within(all, i, p) && Within(all, j, q) && i <= j
    ensures StoredEntry(st, np, i, j, p - Base(all, i), q - Base(all, j)) == H(p, q)
  {
    hide Within, Base, StoredEntry;
    assert HoldsAt(st, np, all, H, i, p, j, q);
  }

  lemma SymmetricAt(st: Store, np: nat, all: seq<nat>, poseEnds: seq<nat>, landmarkEnds: seq<nat>, H: Matrix, p: int, q: int)
    requires Stores(st, np, all, poseEnds, landmarkEnds, H)
    requires 0 <= p < Size(poseEnds) + Size(landmarkEnds) && 0 <= q < Size(poseEnds) + Size(landmarkEnds)
    ensures H(p, q) == H(q, p)
  {
    TotalSize(all, np, poseEnds, landmarkEnds);
  }

  lemma PoseEntries(st: Store, np: nat, all: seq<nat>, poseEnds: seq<nat>, landmarkEnds: seq<nat>, H: Matrix, p: int, q: int)
    requires Stores(st, np, all, poseEnds, landmarkEnds, H) && |st.hpp| == |poseEnds|
    requires 0 <= p < Size(poseEnds) && 0 <= q < Size(poseEnds)
    ensures Upper(Dense(poseEnds, poseEnds, st.hpp))(p, q) == H(p, q)
  {
    hide Stores;
    if p <= q {
      UpperPoseEntry(st, np, all, poseEnds, landmarkEnds, H, p, q);
    } else {
      UpperPoseEntry(st, np, all, poseEnds, landmarkEnds, H, q, p);
      SymmetricAt(st, np, all, poseEnds, landmarkEnds, H, p, q);
    }
  }

  lemma UpperPoseEntry(st: Store, np: nat, all: seq<nat>, poseEnds: seq<nat>, landmarkEnds: seq<nat>, H: Matrix, p: int, q: int)
    requires Stores(st, np, all, poseEnds, landmarkEnds, H) && |st.hpp| == |poseEnds|
    requires 0 <= p <= q < Size(poseEnds)
    ensures Dense(poseEnds, poseEnds, st.hpp)(p, q) == H(p, q)
  {
    hide *;
    LayoutParts(st, np, all, poseEnds, landmarkEnds, H);
    var i, j := BlockOf(poseEnds, p), BlockOf(poseEnds, q);
    BlockOfWithin(poseEnds, p);
    BlockOfWithin(poseEnds, q);
    BlockOrder(poseEnds, i, p, j, q);
    PosePlace(all, np, poseEnds, landmarkEnds, i, p);
    PosePlace(all, np, poseEnds, landmarkEnds, j, q);
    StoredAt(st, np, all, poseEnds, landmarkEnds, H, i, p, j, q);
    DenseEntry(poseEnds, poseEnds, st.hpp, i, j, p, q);
    StoredPose(st, np, i, j, p - Base(poseEnds, i), q - Base(poseEnds, j));
  }

  lemma LayoutParts(st: Store, np: nat, all: seq<nat>, poseEnds: seq<nat>, landmarkEnds: seq<nat>, H: Matrix)
    requires Stores(st, np, all, poseEnds, landmarkEnds, H)
    ensures Layouts(all, np, poseEnds, landmarkEnds)
    ensures Monotone(all) && Monotone(poseEnds) && Monotone(landmarkEnds) && |poseEnds| == np
  {
    forall i, j | 0 <= i < j < |landmarkEnds| ensures landmarkEnds[i] <= landmarkEnds[j] {
      assert landmarkEnds[i] + Size(poseEnds) == all[np + i] && landmarkEnds[j] + Size(poseEnds) == all[np + j];
    }
  }

  lemma DenseEntry(rowEnds: seq<nat>, colEnds: seq<nat>, cols: BlockColumns, r: nat, c: nat, i: int, j: int)
    requires Monotone(rowEnds) && Monotone(colEnds) && Within(rowEnds, r, i) && Within(colEnds, c, j)
    ensures Dense(rowEnds, colEnds, cols)(i, j) == BlockEntry(cols, r, c, i - Base(rowEnds, r), j - Base(colEnds, c))
  {
    hide BlockEntry, Within, Base;
    EntryInBlock(rowEnds, colEnds, cols, r, c, i, j);
  }

  lemma StoredPose(st: Store, np: nat, i: nat, j: nat, a: int, b: int)
    requires j < np
    ensures StoredEntry(st, np, i, j, a, b) == BlockEntry(st.hpp, i, j, a, b)
  {
  }

  lemma CrossEntries(st: Store, np: nat, all: seq<nat>, poseEnds: seq<nat>, landmarkEnds: seq<nat>, H: Matrix, p: int, k: int)
    requires Stores(st, np, all, poseEnds, landmarkEnds, H)
    requires 0 <= p < Size(poseEnds) && 0 <= k < Size(landmarkEnds)
    ensures Dense(poseEnds, landmarkEnds, st.hpl)(p, k) == H(p, Size(poseEnds) + k)
  {
    hide *;
    LayoutParts(st, np, all, poseEnds, landmarkEnds, H);
    var i, l := BlockOf(poseEnds, p), BlockOf(landmarkEnds, k);
    BlockOfWithin(poseEnds, p);
    BlockOfWithin(landmarkEnds, k);
    PosePlace(all, np, poseEnds, landmarkEnds, i, p);
    LandmarkPlace(all, np, poseEnds, landmarkEnds, l, k);
    StoredAt(st, np, all, poseEnds, landmarkEnds, H, i, p, np + l, Size(poseEnds) + k);
    DenseEntry(poseEnds, landmarkEnds, st.hpl, i, l, p, k);
    StoredCross(st, np, i, l, p - Base(poseEnds, i), k - Base(landmarkEnds, l));
  }

  lemma StoredCross(st: Store, np: nat, i: nat, l: nat, a: int, b: int)
    requires i < np
    ensures StoredEntry(st, np, i, np + l, a, b) == BlockEntry(st.hpl, i, l, a, b)
  {
  }

  lemma LandmarkEntries(st: Store, np: nat, all: seq<nat>, poseEnds: seq<nat>, landmarkEnds: seq<nat>, H: Matrix, k: int, k': int)
    requires Stores(st, np, all, poseEnds, landmarkEnds, H) && DiagonalOnly(st.hll)
    requires 0 <= k < Size(landmarkEnds) && 0 <= k' < Size(landmarkEnds)
    ensures Dense(landmarkEnds, landmarkEnds, st.hll)(k, k') == H(Size(poseEnds) + k, Size(poseEnds) + k')
  {
    hide *;
    LayoutParts(st, np, all, poseEnds, landmarkEnds, H);
    var l, l' := BlockOf(landmarkEnds, k), BlockOf(landmarkEnds, k');
    BlockOfWithin(landmarkEnds, k);
    BlockOfWithin(landmarkEnds, k');
    LandmarkPlace(all, np, poseEnds, landmarkEnds, l, k);
    LandmarkPlace(all, np, poseEnds, landmarkEnds, l', k');
    var a, b := k - Base(landmarkEnds, l), k' - Base(landmarkEnds, l');
    DenseEntry(landmarkEnds, landmarkEnds, st.hll, l, l', k, k');
    StoredLandmark(st, np, l, l', a, b);
    if l <= l' {
      StoredAt(st, np, all, poseEnds, landmarkEnds, H, np + l, Size(poseEnds) + k, np + l', Size(poseEnds) + k');
    } else {
      StoredAt(st, np, all, poseEnds, landmarkEnds, H, np + l', Size(poseEnds) + k', np + l, Size(poseEnds) + k);
      SymmetricAt(st, np, all, poseEnds, landmarkEnds, H, Size(poseEnds) + k, Size(poseEnds) + k');
      StoredLandmark(st, np, l', l, b, a);
    }
  }

  lemma StoredLandmark(st: Store, np: nat, l: nat, l': nat, a: int, b: int)
    requires DiagonalOnly(st.hll)
    ensures StoredEntry(st, np, np + l, np + l', a, b) == BlockEntry(st.hll, l, l', a, b)
    ensures l != l' ==> BlockEntry(st.hll, l, l', a, b) == 0.0
  {
  }

  // ----- The solution of the block system solves the normal equations

  lemma SplitRow(n: nat, m: nat, H: Matrix, A: Matrix, B: Matrix, x: Vector, r: int, i: int, k: int)
    requires forall q :: 0 <= q < n ==> H(r, q) == A(i, q)
    requires forall q :: 0 <= q < m ==> H(r, n + q) == B(k, q)
    ensures MatVec(n + m, H, x)(r) == MatVec(n, A, x)(i) + MatVec(m, B, FromOffset(x, n))(k)
  {
    SumSplit(0, n, n + m, Terms(H, r, x));
    SumCong(0, n, Terms(H, r, x), Terms(A, i, x));
    forall q | 0 <= q < m ensures Terms(B, k, FromOffset(x, n))(q) == Terms(H, r, x)(q + n) {
      assert H(r, n + q) == B(k, q);
    }
    SumShift(0, m, n, Terms(H, r, x), Terms(B, k, FromOffset(x, n)));
  }

  lemma WholeIsNormalEquations(n: nat, m: nat, H: Matrix, A: Matrix, E: Matrix, D: Matrix, x: Vector, b: Vector, g: Vector)
    requires forall p, q :: 0 <= p < n && 0 <= q < n ==> A(p, q) == H(p, q)
    requires forall p, k :: 0 <= p < n && 0 <= k < m ==> E(p, k) == H(p, n + k)
    requires forall p, k :: 0 <= p < n && 0 <= k < m ==> E(p, k) == H(n + k, p)
    requires forall k, k' :: 0 <= k < m && 0 <= k' < m ==> D(k, k') == H(n + k, n + k')
    requires SolvesWhole(n, m, A, E, D, x, b) && forall p :: 0 <= p < n + m ==> b(p) == g(p)
    ensures Solves(n + m, H, x, g)
  {
    hide MatVec;
    forall r | 0 <= r < n + m ensures MatVec(n + m, H, x)(r) == g(r) {
      if r < n {
        SplitRow(n, m, H, A, E, x, r, r, r);
      } else {
        SplitRow(n, m, H, Transpose(E), D, x, r, r - n, r - n);
      }
    }
  }

  /** Whatever the block solver returns on success solves the dense system that the store holds. */
  lemma SolutionIsExact(st: Store, np: nat, all: seq<nat>, poseEnds: seq<nat>, landmarkEnds: seq<nat>, H: Matrix, g: Vector,
                        x: Vector, b: Vector)
    requires Stores(st, np, all, poseEnds, landmarkEnds, H) && DiagonalOnly(st.hll) && |st.hpp| == |poseEnds|
    requires SolvesWhole(Size(poseEnds), Size(landmarkEnds), Upper(Dense(poseEnds, poseEnds, st.hpp)),
                         Dense(poseEnds, landmarkEnds, st.hpl), Dense(landmarkEnds, landmarkEnds, st.hll), x, b)
    requires forall p :: 0 <= p < Size(all) ==> b(p) == g(p)
    ensures Solves(Size(all), H, x, g)
  {
    hide *;
    var n, m := Size(poseEnds), Size(landmarkEnds);
    LayoutParts(st, np, all, poseEnds, landmarkEnds, H);
    TotalSize(all, np, poseEnds, landmarkEnds);
    forall p, q | 0 <= p < n && 0 <= q < n ensures Upper(Dense(poseEnds, poseEnds, st.hpp))(p, q) == H(p, q) {
      PoseEntries(st, np, all, poseEnds, landmarkEnds, H, p, q);
    }
    forall p, k | 0 <= p < n && 0 <= k < m ensures Dense(poseEnds, landmarkEnds, st.hpl)(p, k) == H(p, n + k) == H(n + k, p) {
      CrossEntries(st, np, all, poseEnds, landmarkEnds, H, p, k);
      SymmetricAt(st, np, all, poseEnds, landmarkEnds, H, p, n + k);
    }
    forall k, k' | 0 <= k < m && 0 <= k' < m ensures Dense(landmarkEnds, landmarkEnds, st.hll)(k, k') == H(n + k, n + k') {
      LandmarkEntries(st, np, all, poseEnds, landmarkEnds, H, k, k');
    }
    WholeIsNormalEquations(n, m, H, Upper(Dense(poseEnds, poseEnds, st.hpp)), Dense(poseEnds, landmarkEnds, st.hpl),
                           Dense(landmarkEnds, landmarkEnds, st.hll), x, b, g);
  }

  /** What Levenberg and dogleg assume of the normal equations holds of every assembled system. */
  lemma AssembledIsSemidefinite(n: nat, ms: seq<Measurement>, all: seq<nat>)
    requires AllValid(ms) && forall e :: 0 <= e < |ms| ==> PositiveSemidefinite(ms[e].dimension, ms[e].information)
    ensures SymmetricMatrix(n, Hessian(ms, all)) && PositiveSemidefinite(n, Hessian(ms, all))
  {
    hide Hessian, Form;
    AllSymmetric(n, ms, all);
    forall x: Vector ensures Form(n, Hessian(ms, all), x, x) >= 0.0 {
      HessianSemidefinite(n, ms, all, x);
    }
  }

  /** No increment lowers the cost of the linearised edges further than a solution of their normal equations. */
  lemma SolutionMinimizes(n: nat, ms: seq<Measurement>, all: seq<nat>, x: Vector, y: Vector)
    requires AllValid(ms) && forall e :: 0 <= e < |ms| ==> PositiveSemidefinite(ms[e].dimension, ms[e].information)
    requires Solves(n, Hessian(ms, all), x, Gradient(ms, all))
    ensures TotalCost(n, ms, all, x) <= TotalCost(n, ms, all, y)
  {
    hide Hessian, Gradient, TotalCost, Gain, Slope, Form;
    var H, g, d := Hessian(ms, all), Gradient(ms, all), Minus(y, x);
    AssembledIsSemidefinite(n, ms, all);
    GainIsCostDecrease(n, ms, all, x);
    GainIsCostDecrease(n, ms, all, y);
    GainCong(n, H, g, y, Plus(x, Scale(1.0, d)));
    GainExpands(n, H, g, 1.0, x, d);
    StationarySlope(n, H, g, x, d);
    assert Form(n, H, d, d) >= 0.0;
  }

  lemma StationarySlope(n: nat, H: Matrix, g: Vector, x: Vector, d: Vector)
    requires SymmetricMatrix(n, H) && Solves(n, H, x, g)
    ensures Slope(n, H, g, x, d) == 0.0
  {
    FormSymmetric(n, H, x, d);
    DotCong(n, d, d, MatVec(n, H, x), g);
    DotSymmetric(n, d, g);
  }

  /** A stored landmark block is symmetric, so inverting it is all that is needed. */
  lemma LandmarkBlocksSymmetric(st: Store, np: nat, all: seq<nat>, poseEnds: seq<nat>, landmarkEnds: seq<nat>, H: Matrix,
                                inverse: Inverter)
    requires Stores(st, np, all, poseEnds, landmarkEnds, H) && Inverts(landmarkEnds, st.hll, inverse)
    ensures Invertible(landmarkEnds, st.hll, inverse)
  {
    hide Stores;
    forall l: nat, a: nat, b: nat | l < |landmarkEnds| && a < Dim(landmarkEnds, l) && b < Dim(landmarkEnds, l)
      ensures st.hll[l][l](a, b) == st.hll[l][l](b, a)
    {
      LandmarkBlockSymmetric(st, np, all, poseEnds, landmarkEnds, H, l, a, b);
    }
  }

  lemma LandmarkBlockSymmetric(st: Store, np: nat, all: seq<nat>, poseEnds: seq<nat>, landmarkEnds: seq<nat>, H: Matrix,
                               l: nat, a: nat, b: nat)
    requires Stores(st, np, all, poseEnds, landmarkEnds, H) && DiagonalOnly(st.hll) && |st.hll| == |landmarkEnds|
    requires l < |landmarkEnds| && a < Dim(landmarkEnds, l) && b < Dim(landmarkEnds, l)
    ensures st.hll[l][l](a, b) == st.hll[l][l](b, a)
  {
    hide Stores, Layouts, Entry, Monotone;
    LayoutParts(st, np, all, poseEnds, landmarkEnds, H);
    var i, j := Base(landmarkEnds, l) + a, Base(landmarkEnds, l) + b;
    InSegmentOf(landmarkEnds, l, a);
    InSegmentOf(landmarkEnds, l, b);
    LandmarkEntries(st, np, all, poseEnds, landmarkEnds, H, i, j);
    LandmarkEntries(st, np, all, poseEnds, landmarkEnds, H, j, i);
    EntryInBlock(landmarkEnds, landmarkEnds, st.hll, l, l, i, j);
    EntryInBlock(landmarkEnds, landmarkEnds, st.hll, l, l, j, i);
    SymmetricAt(st, np, all, poseEnds, landmarkEnds, H, Size(poseEnds) + i, Size(poseEnds) + j);
  }

  lemma InSegmentOf(ends: seq<nat>, b: nat, t: nat)
    requires Monotone(ends) && b < |ends| && t < Dim(ends, b)
    ensures Within(ends, b, Base(ends, b) + t) && 0 <= Base(ends, b) + t < Size(ends)
  {
    BaseMonotone(ends, b + 1, |ends|);
  }

  /** The store holds the normal equations with matrix H and right hand side g. */
  ghost predicate SystemIs(solver: BlockSolver, np: nat, all: seq<nat>, H: Matrix, g: Vector)
    reads solver.Hpp, solver.Hpl, solver.Hll, solver.b
  {
    && Stores(StoreOf(solver), np, all, solver.Hpp.rowBlockIndices, solver.Hll.colBlockIndices, H)
    && IsRightHandSide(solver.b, Size(all), g)
  }

  /** What solving relies on besides. */
  ghost predicate Solvable(solver: BlockSolver)
    reads solver`HplCCS, solver`HschurTransposedCCS, solver`DInvSchur, solver.Hpp, solver.Hpl, solver.Hll, solver.Hschur
  {
    && solver.Shapes() && solver.Buffers() && solver.Views() && |solver.DInvSchur| == |solver.Hll.colBlockIndices|
    && DiagonalOnly(solver.Hll.blockCols)
  }

  /**
   What the linear solver is asked: the pose part of the blocks of st with the landmarks eliminated. Without
   landmarks this is the pose part itself.
   */
  ghost predicate IsAsked(st: Store, poseEnds: seq<nat>, landmarkEnds: seq<nat>, inverse: Inverter, g: Vector, asked: Matrix,
                          rhs: Vector)
  {
    && DiagonalOnly(st.hll) && |st.hll| == |landmarkEnds|
    && ValidBlocks(poseEnds, poseEnds, st.hpp) && ValidBlocks(poseEnds, landmarkEnds, st.hpl)
    && IsReducedSystem(Size(poseEnds), Size(landmarkEnds), Dense(poseEnds, poseEnds, st.hpp), Dense(poseEnds, landmarkEnds, st.hpl),
                       DiagonalDense(landmarkEnds, Inverses(landmarkEnds, st.hll, inverse)), g, asked, rhs)
  }

  /**
   Solving the system: the verdict is the linear solver's on the reduced system, and the poses get its answer.
   Success means an exact solution, provided the landmark blocks could be inverted.
   */
  method SolveNormalEquations(solver: BlockSolver, doSchur: bool, inverse: Inverter, linearSolver: NormalEquations.LinearSolver,
                              ghost np: nat, ghost all: seq<nat>, ghost H: Matrix, ghost g: Vector)
    returns (ok: bool, ghost asked: Matrix, ghost rhs: Vector)
    requires Solvable(solver) && NormalEquations.SolvesOnSuccess(linearSolver) && SystemIs(solver, np, all, H, g)
    requires !doSchur ==> |solver.Hll.colBlockIndices| == 0
    modifies solver.Hschur, solver.coefficients, solver.bschur, solver.x, solver`DInvSchur
    ensures Solvable(solver) && SystemIs(solver, np, all, H, g)
    ensures IsAsked(StoreOf(solver), solver.Hpp.rowBlockIndices, solver.Hll.colBlockIndices, inverse, g, asked, rhs)
    ensures ok == linearSolver(Size(solver.Hpp.rowBlockIndices), asked, rhs).0
    ensures forall i :: 0 <= i < Size(solver.Hpp.rowBlockIndices) ==>
      AsVector(solver.x[..])(i) == linearSolver(Size(solver.Hpp.rowBlockIndices), asked, rhs).1(i)
    ensures ok && Inverts(solver.Hll.colBlockIndices, solver.Hll.blockCols, inverse) ==> Solves(Size(all), H, AsVector(solver.x[..]), g)
  {
    hide Inverts, Invertible, Stores, SolvesWhole, Solves, Upper, Dense, NormalEquations.SolvesOnSuccess, IsReducedSystem;
    hide Inverses, DiagonalDense, BackSubstituted;
    if !doSchur {
      asked, rhs := Upper(solver.Hpp.AsDense()), AsVector(solver.b[..]);
      ok := solver.SolveDirectly(linearSolver);
      AsksDirectly(solver, inverse);
      if ok {
        PosesAlone(StoreOf(solver), np, all, solver.Hpp.rowBlockIndices, solver.Hll.colBlockIndices, H, g, AsVector(solver.x[..]),
                   AsVector(solver.b[..]));
      }
    } else {
      ok := solver.Solve(inverse, linearSolver);
      asked, rhs := Upper(solver.Hschur.AsDense()), AsVector(solver.bschur[..]);
      if ok && Inverts(solver.Hll.colBlockIndices, solver.Hll.blockCols, inverse) {
        LandmarkBlocksSymmetric(StoreOf(solver), np, all, solver.Hpp.rowBlockIndices, solver.Hll.colBlockIndices, H, inverse);
        SolutionIsExact(StoreOf(solver), np, all, solver.Hpp.rowBlockIndices, solver.Hll.colBlockIndices, H, g,
                        AsVector(solver.x[..]), AsVector(solver.b[..]));
      }
    }
    AskedFor(solver, np, all, H, inverse, g, asked, rhs);
  }

  lemma AsksDirectly(solver: BlockSolver, inverse: Inverter)
    requires Solvable(solver) && |solver.Hll.colBlockIndices| == 0
    ensures IsReducedSystem(solver.bschur.Length, Size(solver.Hll.colBlockIndices), solver.Hpp.AsDense(), solver.Hpl.AsDense(),
                            DiagonalDense(solver.Hll.colBlockIndices, Inverses(solver.Hll.colBlockIndices, solver.Hll.blockCols, inverse)),
                            AsVector(solver.b[..]), Upper(solver.Hpp.AsDense()), AsVector(solver.b[..]))
  {
    hide DiagonalDense, Inverses, Entry, Dense;
    NothingToReduce(solver.bschur.Length, solver.Hpp.AsDense(), solver.Hpl.AsDense(),
                    DiagonalDense(solver.Hll.colBlockIndices, Inverses(solver.Hll.colBlockIndices, solver.Hll.blockCols, inverse)),
                    AsVector(solver.b[..]), Upper(solver.Hpp.AsDense()));
  }

  lemma AskedFor(solver: BlockSolver, np: nat, all: seq<nat>, H: Matrix, inverse: Inverter, g: Vector, asked: Matrix, rhs: Vector)
    requires Solvable(solver) && SystemIs(solver, np, all, H, g)
    requires IsReducedSystem(solver.bschur.Length, Size(solver.Hll.colBlockIndices), solver.Hpp.AsDense(), solver.Hpl.AsDense(),
                             DiagonalDense(solver.Hll.colBlockIndices, Inverses(solver.Hll.colBlockIndices, solver.Hll.blockCols, inverse)),
                             AsVector(solver.b[..]), asked, rhs)
    ensures IsAsked(StoreOf(solver), solver.Hpp.rowBlockIndices, solver.Hll.colBlockIndices, inverse, g, asked, rhs)
  {
    hide Stores, DiagonalDense, Inverses, IsReducedSystem, Entry;
    LayoutParts(StoreOf(solver), np, all, solver.Hpp.rowBlockIndices, solver.Hll.colBlockIndices, H);
    TotalSize(all, np, solver.Hpp.rowBlockIndices, solver.Hll.colBlockIndices);
    ReducedCong(solver.bschur.Length, Size(solver.Hll.colBlockIndices), solver.Hpp.AsDense(), solver.Hpl.AsDense(),
                DiagonalDense(solver.Hll.colBlockIndices, Inverses(solver.Hll.colBlockIndices, solver.Hll.blockCols, inverse)),
                AsVector(solver.b[..]), g, asked, rhs);
  }

  /** Without landmarks the pose part is the whole system. */
  lemma PosesAlone(st: Store, np: nat, all: seq<nat>, poseEnds: seq<nat>, landmarkEnds: seq<nat>, H: Matrix, g: Vector,
                   x: Vector, b: Vector)
    requires Stores(st, np, all, poseEnds, landmarkEnds, H) && |st.hpp| == |poseEnds| && landmarkEnds == []
    requires Solves(Size(poseEnds), Upper(Dense(poseEnds, poseEnds, st.hpp)), x, b)
    requires forall p :: 0 <= p < Size(all) ==> b(p) == g(p)
    ensures Solves(Size(all), H, x, g)
  {
    hide Stores, Solves, Upper, Dense;
    LayoutParts(st, np, all, poseEnds, landmarkEnds, H);
    TotalSize(all, np, poseEnds, landmarkEnds);
    forall p, q | 0 <= p < Size(poseEnds) && 0 <= q < Size(poseEnds) ensures Upper(Dense(poseEnds, poseEnds, st.hpp))(p, q) == H(p, q) {
      PoseEntries(st, np, all, poseEnds, landmarkEnds, H, p, q);
    }
    NormalEquations.SolvesCong(Size(all), Upper(Dense(poseEnds, poseEnds, st.hpp)), H, x, b);
    SameRightHandSide(Size(all), H, x, b, g);
  }

  lemma SameRightHandSide(n: nat, H: Matrix, x: Vector, b: Vector, g: Vector)
    requires Solves(n, H, x, b) && forall p :: 0 <= p < n ==> b(p) == g(p)
    ensures Solves(n, H, x, g)
  {
    hide MatVec;
  }

  /** An assembled system is the one of the linearised edges. */
  lemma AssembledSystem(solver: BlockSolver, np: nat, all: seq<nat>, ms: seq<Measurement>)
    requires solver.Shapes() && Layouts(all, np, solver.Hpp.rowBlockIndices, solver.Hll.colBlockIndices) && AllValid(ms)
    requires Complete(StoreOf(solver), ms, np, |ms|) && IsRightHandSide(solver.b, Size(all), Gradient(ms, all))
    ensures SystemIs(solver, np, all, Hessian(ms, all), Gradient(ms, all))
  {
    hide Hessian, Gradient, Complete;
    AllSymmetric(Size(all), ms, all);
    AssembledHolds(StoreOf(solver), ms, np, all);
  }
}
