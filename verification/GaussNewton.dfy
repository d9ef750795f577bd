/** Gauss-Newton iterations, from the index mapping and the edges of the graph to the moved vertices. */
module GaussNewton {
  import opened Options
  import opened LinearAlgebra
  import opened BlockLayout
  import opened DampedNewton
  import opened QuadraticForms
  import opened BlockSolver
  import opened PairIndex
  import SystemStore
  import opened SystemAssembly
  import opened LeastSquares
  import opened SchurDefinite
  import opened BlockStructure
  import Graph = GraphOptimizer
  import Normal = NormalEquations

  type State = seq<Graph.Estimate>

  /** The layout of all free vertices, and the normal equations of the edges linearised at s. */
  ghost function HessianAt(edges: seq<Edge>, ivMap: seq<Graph.Vertex>, s: State): Matrix {
    Hessian(Measurements(edges, s), Graph.Ends(ivMap))
  }

  ghost function GradientAt(edges: seq<Edge>, ivMap: seq<Graph.Vertex>, s: State): Vector {
    Gradient(Measurements(edges, s), Graph.Ends(ivMap))
  }

  /** Nothing has been built: only the layouts of the blocks are known. */
  ghost predicate Unbuilt(solver: BlockSolver, edges: seq<Edge>, incident: seq<seq<Edge>>, np: nat, n: nat)
    reads edges, solver.Hpp, solver.Hpl, solver.Hll, solver.Hschur
  {
    && EmptyColumns(solver.Hpp.blockCols) && EmptyColumns(solver.Hpl.blockCols)
    && EmptyColumns(solver.Hll.blockCols) && EmptyColumns(solver.Hschur.blockCols)
    && solver.Hpp.hasStorage && solver.Hpl.hasStorage && solver.Hll.hasStorage
    && DistinctEdges(edges) && Fresh(edges, np, n) && Incident(edges, incident, np, n)
  }

  /** An earlier iteration has built the structure. */
  ghost predicate Built(solver: BlockSolver, edges: seq<Edge>, np: nat, n: nat)
    reads solver`HplCCS, solver`HschurTransposedCCS, solver`DInvSchur, edges
    reads solver.Hpp, solver.Hpl, solver.Hll, solver.Hschur
  {
    Solvable(solver) && Structured(edges, StoreOf(solver), np, n)
  }

  lemma StructuredIsValid(edges: seq<Edge>, st: SystemStore.Store, np: nat, n: nat, s: State)
    requires Structured(edges, st, np, n)
    ensures AllValid(Measurements(edges, s))
  {
    hide EdgeMapped, DiagonalPresent, Supported, Edge.Valid;
    MeasurementsValid(edges, s);
  }

  /** Builds the structure in the first iteration, and the system in every one. */
  method Build(solver: BlockSolver, optimizer: Graph.SparseOptimizer, edges: seq<Edge>, incident: seq<seq<Edge>>, np: nat,
               iteration: nat)
    requires solver.Shapes() && solver.Buffers() && Arranged(solver, optimizer, np)
    requires if iteration == 0 then Unbuilt(solver, edges, incident, np, |optimizer.ivMap|)
             else Built(solver, edges, np, |optimizer.ivMap|)
    modifies solver.Hpp, solver.Hpl, solver.Hll, solver.Hschur, edges, solver`HplCCS, solver`HschurTransposedCCS, solver`DInvSchur
    modifies solver.b, optimizer.ivMap`rhs
    ensures Built(solver, edges, np, |optimizer.ivMap|)
    ensures var s := Graph.Estimates(optimizer.activeVertices);
            SystemIs(solver, np, Graph.Ends(optimizer.ivMap), HessianAt(edges, optimizer.ivMap, s),
                     GradientAt(edges, optimizer.ivMap, s))
  {
    hide Layouts, Structured, Hessian, Gradient, Arranged, SystemStore.Complete, AllValid, IsRightHandSide, DiagonalOnly;
    ArrangedLayouts(solver, optimizer, np);
    if iteration == 0 {
      BuildStructure(solver, edges, incident, np, |optimizer.ivMap|);
    }
    BuildSystem(solver, optimizer, edges, np);
    ghost var s := Graph.Estimates(optimizer.activeVertices);
    StructuredIsValid(edges, StoreOf(solver), np, |optimizer.ivMap|, s);
    AssembledSystem(solver, np, Graph.Ends(optimizer.ivMap), Measurements(edges, s));
  }

  /** One attempt to solve: the blocks, the reduced system that the linear solver was asked, its verdict, and the increment. */
  datatype Attempt = Attempt(blocks: SystemStore.Store, asked: Matrix, rhs: Vector, solved: bool, x: Vector)

  /** One iteration: the estimates around it and the attempt. */
  datatype Iteration = Iteration(before: State, after: State, attempt: Attempt)

  /**
   The blocks are those of the edges linearised at s. The linear solver was asked their reduced system: the
   verdict is its own, and so is the poses' part of the increment. If it succeeded and every landmark block
   could be inverted, the increment solves the normal equations.
   */
  ghost predicate IncrementOk(edges: seq<Edge>, ivMap: seq<Graph.Vertex>, np: nat, poseEnds: seq<nat>, landmarkEnds: seq<nat>,
                              inverse: Inverter, linearSolver: Normal.LinearSolver, s: State, t: Attempt)
  {
    && Stores(t.blocks, np, Graph.Ends(ivMap), poseEnds, landmarkEnds, HessianAt(edges, ivMap, s))
    && IsAsked(t.blocks, poseEnds, landmarkEnds, inverse, GradientAt(edges, ivMap, s), t.asked, t.rhs)
    && IsAnswer(linearSolver, Size(poseEnds), t)
    && (t.solved && Inverts(landmarkEnds, t.blocks.hll, inverse) ==>
          Solves(Size(Graph.Ends(ivMap)), HessianAt(edges, ivMap, s), t.x, GradientAt(edges, ivMap, s)))
  }

  ghost predicate IsAnswer(linearSolver: Normal.LinearSolver, n: nat, t: Attempt) {
    && t.solved == linearSolver(n, t.asked, t.rhs).0
    && forall i :: 0 <= i < n ==> t.x(i) == linearSolver(n, t.asked, t.rhs).1(i)
  }

  /** The increment is right for the estimates before, and each vertex has moved by its slice of it. */
  ghost predicate IterationOk(edges: seq<Edge>, vs: seq<Graph.Vertex>, ivMap: seq<Graph.Vertex>, np: nat, poseEnds: seq<nat>,
                              landmarkEnds: seq<nat>, inverse: Inverter, linearSolver: Normal.LinearSolver, it: Iteration)
  {
    && IncrementOk(edges, ivMap, np, poseEnds, landmarkEnds, inverse, linearSolver, it.before, it.attempt)
    && Graph.StepTaken(vs, ivMap, it.before, it.attempt.x, it.after)
  }

  /** Builds the system and solves it. */
  method Increment(solver: BlockSolver, optimizer: Graph.SparseOptimizer, edges: seq<Edge>, incident: seq<seq<Edge>>, np: nat,
                   iteration: nat, inverse: Inverter, linearSolver: Normal.LinearSolver) returns (ok: bool, ghost attempt: Attempt)
    requires solver.Shapes() && solver.Buffers() && Arranged(solver, optimizer, np) && Normal.SolvesOnSuccess(linearSolver)
    requires if iteration == 0 then Unbuilt(solver, edges, incident, np, |optimizer.ivMap|)
             else Built(solver, edges, np, |optimizer.ivMap|)
    modifies solver.Hpp, solver.Hpl, solver.Hll, solver.Hschur, edges, solver`HplCCS, solver`HschurTransposedCCS, solver`DInvSchur
    modifies solver.b, solver.coefficients, solver.bschur, solver.x, optimizer.ivMap`rhs
    ensures Built(solver, edges, np, |optimizer.ivMap|)
    ensures attempt.solved == ok && attempt.x == AsVector(solver.x[..]) && attempt.blocks == StoreOf(solver)
    ensures IncrementOk(edges, optimizer.ivMap, np, solver.Hpp.rowBlockIndices, solver.Hll.colBlockIndices, inverse, linearSolver,
                        Graph.Estimates(optimizer.activeVertices), attempt)
  {
    hide *;
    Build(solver, optimizer, edges, incident, np, iteration);
    BuiltParts(solver, edges, np, |optimizer.ivMap|);
    ghost var s := Graph.Estimates(optimizer.activeVertices);
    var doSchur := |solver.Hll.colBlockIndices| > 0;
    ghost var asked, rhs;
    ok, asked, rhs := SolveNormalEquations(solver, doSchur, inverse, linearSolver, np, Graph.Ends(optimizer.ivMap),
                                           HessianAt(edges, optimizer.ivMap, s), GradientAt(edges, optimizer.ivMap, s));
    attempt := Attempt(StoreOf(solver), asked, rhs, ok, AsVector(solver.x[..]));
    IncrementMade(solver, edges, optimizer.ivMap, np, inverse, linearSolver, s, attempt);
  }

  lemma BuiltParts(solver: BlockSolver, edges: seq<Edge>, np: nat, n: nat)
    requires Built(solver, edges, np, n)
    ensures Solvable(solver) && solver.Shapes() && solver.Buffers() && Structured(edges, StoreOf(solver), np, n)
    ensures solver.Hschur != solver.Hpp && solver.Hschur != solver.Hpl && solver.Hschur != solver.Hll
  {
    hide Structured;
  }

  lemma IncrementMade(solver: BlockSolver, edges: seq<Edge>, ivMap: seq<Graph.Vertex>, np: nat, inverse: Inverter,
                      linearSolver: Normal.LinearSolver, s: State, t: Attempt)
    requires Solvable(solver) && Structured(edges, StoreOf(solver), np, |ivMap|) && t.blocks == StoreOf(solver)
    requires SystemIs(solver, np, Graph.Ends(ivMap), HessianAt(edges, ivMap, s), GradientAt(edges, ivMap, s))
    requires IsAsked(t.blocks, solver.Hpp.rowBlockIndices, solver.Hll.colBlockIndices, inverse, GradientAt(edges, ivMap, s),
                     t.asked, t.rhs)
    requires t.solved == linearSolver(Size(solver.Hpp.rowBlockIndices), t.asked, t.rhs).0
    requires forall i :: 0 <= i < Size(solver.Hpp.rowBlockIndices) ==>
      t.x(i) == linearSolver(Size(solver.Hpp.rowBlockIndices), t.asked, t.rhs).1(i)
    requires t.solved && Inverts(solver.Hll.colBlockIndices, solver.Hll.blockCols, inverse) ==>
      Solves(Size(Graph.Ends(ivMap)), HessianAt(edges, ivMap, s), t.x, GradientAt(edges, ivMap, s))
    ensures Built(solver, edges, np, |ivMap|)
    ensures IncrementOk(edges, ivMap, np, solver.Hpp.rowBlockIndices, solver.Hll.colBlockIndices, inverse, linearSolver, s, t)
  {
    hide Stores, Structured, Inverts, HessianAt, GradientAt, Solves, Solvable, IsAsked;
  }

  /** Builds the system, solves it, and moves the vertices by whatever the solver left in x. */
  method Solve(solver: BlockSolver, optimizer: Graph.SparseOptimizer, edges: seq<Edge>, incident: seq<seq<Edge>>, np: nat,
               iteration: nat, inverse: Inverter, linearSolver: Normal.LinearSolver)
    returns (result: Normal.SolverResult, ghost it: Iteration)
    requires solver.Shapes() && solver.Buffers() && Arranged(solver, optimizer, np) && Normal.SolvesOnSuccess(linearSolver)
    requires if iteration == 0 then Unbuilt(solver, edges, incident, np, |optimizer.ivMap|)
             else Built(solver, edges, np, |optimizer.ivMap|)
    modifies solver.Hpp, solver.Hpl, solver.Hll, solver.Hschur, edges, solver`HplCCS, solver`HschurTransposedCCS, solver`DInvSchur
    modifies solver.b, solver.coefficients, solver.bschur, solver.x, optimizer.ivMap`rhs, optimizer.ivMap`estimate
    ensures Built(solver, edges, np, |optimizer.ivMap|)
    ensures result == if it.attempt.solved then Normal.OK else Normal.Fail
    ensures it.before == old(Graph.Estimates(optimizer.activeVertices)) && it.after == Graph.Estimates(optimizer.activeVertices)
    ensures IterationOk(edges, optimizer.activeVertices, optimizer.ivMap, np, solver.Hpp.rowBlockIndices,
                        solver.Hll.colBlockIndices, inverse, linearSolver, it)
  {
    hide *;
    ghost var before := Graph.Estimates(optimizer.activeVertices);
    ArrangedLayouts(solver, optimizer, np);
    var ok;
    ghost var attempt;
    ok, attempt := Increment(solver, optimizer, edges, incident, np, iteration, inverse, linearSolver);
    optimizer.Update(AsVector(solver.x[..]));
    it := Iteration(before, Graph.Estimates(optimizer.activeVertices), attempt);
    Recorded(edges, optimizer.activeVertices, optimizer.ivMap, np, solver.Hpp.rowBlockIndices, solver.Hll.colBlockIndices,
             inverse, linearSolver, it);
    result := if ok then Normal.OK else Normal.Fail;
  }

  lemma Recorded(edges: seq<Edge>, vs: seq<Graph.Vertex>, ivMap: seq<Graph.Vertex>, np: nat, poseEnds: seq<nat>,
                 landmarkEnds: seq<nat>, inverse: Inverter, linearSolver: Normal.LinearSolver, it: Iteration)
    requires IncrementOk(edges, ivMap, np, poseEnds, landmarkEnds, inverse, linearSolver, it.before, it.attempt)
    requires Graph.StepTaken(vs, ivMap, it.before, it.attempt.x, it.after)
    ensures IterationOk(edges, vs, ivMap, np, poseEnds, landmarkEnds, inverse, linearSolver, it)
  {
  }

  /** Each iteration starts from the estimates that the one before left behind. */
  ghost predicate IsRun(run: seq<Iteration>, first: State, last: State) {
    if run == [] then first == last
    else run[|run| - 1].after == last && IsRun(run[..|run| - 1], first, run[|run| - 1].before)
  }

  /** What the graph hands over: the edges' vertices are numbered by the index mapping of vlist. */
  ghost predicate EdgesFit(vlist: seq<Graph.Vertex>, edges: seq<Edge>, incident: seq<seq<Edge>>)
    reads edges
  {
    var n, np := |Graph.IndexMapping(vlist)|, |Graph.Restrict(vlist, false)|;
    np <= n && DistinctEdges(edges) && Fresh(edges, np, n) && Incident(edges, incident, np, n)
  }

  /** Numbers the vertices and sets up an empty block system for them. */
  method Initialize(optimizer: Graph.SparseOptimizer, vlist: seq<Graph.Vertex>) returns (solver: BlockSolver, np: nat)
    requires Graph.Distinct(vlist)
    modifies optimizer`ivMap, vlist`hessianIndex, vlist`colInHessian
    ensures fresh(solver) && fresh(solver.Hpp) && fresh(solver.Hpl) && fresh(solver.Hll) && fresh(solver.Hschur)
    ensures fresh(solver.coefficients) && fresh(solver.bschur) && fresh(solver.x) && fresh(solver.b)
    ensures optimizer.ivMap == Graph.IndexMapping(vlist) && np == |Graph.Restrict(vlist, false)|
    ensures solver.Shapes() && solver.Buffers() && Arranged(solver, optimizer, np)
    ensures EmptyColumns(solver.Hpp.blockCols) && EmptyColumns(solver.Hpl.blockCols)
    ensures EmptyColumns(solver.Hll.blockCols) && EmptyColumns(solver.Hschur.blockCols)
    ensures solver.Hpp.hasStorage && solver.Hpl.hasStorage && solver.Hll.hasStorage
  {
    Graph.IndexMappingIsBijection(vlist);
    var ok := optimizer.BuildIndexMapping(vlist);
    PosesCounted(vlist);
    var sizePoses, sizeLandmarks, poseEnds, landmarkEnds := optimizer.AssignColumns();
    MappingGivesLayouts(optimizer.ivMap);
    LayoutsMonotone(Graph.Ends(optimizer.ivMap), poseEnds, landmarkEnds);
    solver := new BlockSolver(poseEnds, landmarkEnds);
    np := |poseEnds|;
  }

  /**
   Numbers the vertices and iterates. The result is -1 if there is nothing to optimise, 0 if an iteration
   failed, which ends the run, and otherwise the number of iterations.
   */
  method Optimize(optimizer: Graph.SparseOptimizer, vlist: seq<Graph.Vertex>, edges: seq<Edge>, incident: seq<seq<Edge>>,
                  iterations: nat, inverse: Inverter, linearSolver: Normal.LinearSolver)
    returns (count: int, ghost run: seq<Iteration>)
    requires Graph.Distinct(vlist) && EdgesFit(vlist, edges, incident) && Normal.SolvesOnSuccess(linearSolver)
    modifies optimizer`ivMap, vlist`hessianIndex, vlist`colInHessian, vlist`rhs, vlist`estimate, edges
    ensures optimizer.ivMap == Graph.IndexMapping(vlist) && optimizer.activeVertices == old(optimizer.activeVertices)
    ensures RunOk(edges, optimizer.activeVertices, vlist, inverse, linearSolver, run)
    ensures IsRun(run, old(Graph.Estimates(optimizer.activeVertices)), Graph.Estimates(optimizer.activeVertices))
    ensures forall i :: 0 <= i < |run| - 1 ==> run[i].attempt.solved
    ensures if optimizer.ivMap == [] then run == [] && count == -1
            else if run != [] && !run[|run| - 1].attempt.solved then |run| <= iterations && count == 0
            else |run| == iterations == count
    ensures AlwaysSucceeds(linearSolver) && optimizer.ivMap != [] ==> count == iterations
  {
    hide *;
    var solver, np := Initialize(optimizer, vlist);
    if optimizer.ivMap == [] {
      count, run := -1, [];
      NoRun(edges, optimizer.activeVertices, vlist, inverse, linearSolver, Graph.Estimates(optimizer.activeVertices));
    } else {
      StartIsUnbuilt(solver, vlist, edges, incident, np);
      MappingMembers(vlist);
      count, run := Iterate(solver, optimizer, vlist, edges, incident, np, iterations, inverse, linearSolver);
      if AlwaysSucceeds(linearSolver) {
        NeverFails(edges, optimizer.activeVertices, vlist, inverse, linearSolver, run);
      }
    }
  }

  /** The loop, until an iteration fails. */
  method Iterate(solver: BlockSolver, optimizer: Graph.SparseOptimizer, ghost vlist: seq<Graph.Vertex>, edges: seq<Edge>,
                 incident: seq<seq<Edge>>, np: nat, iterations: nat, inverse: Inverter, linearSolver: Normal.LinearSolver)
    returns (count: int, ghost run: seq<Iteration>)
    requires solver.Shapes() && solver.Buffers() && Arranged(solver, optimizer, np) && Normal.SolvesOnSuccess(linearSolver)
    requires Unbuilt(solver, edges, incident, np, |optimizer.ivMap|)
    requires optimizer.ivMap == Graph.IndexMapping(vlist) && np == |Graph.Restrict(vlist, false)|
    modifies solver.Hpp, solver.Hpl, solver.Hll, solver.Hschur, edges, solver`HplCCS, solver`HschurTransposedCCS, solver`DInvSchur
    modifies solver.b, solver.coefficients, solver.bschur, solver.x, optimizer.ivMap`rhs, optimizer.ivMap`estimate
    ensures RunOk(edges, optimizer.activeVertices, vlist, inverse, linearSolver, run)
    ensures IsRun(run, old(Graph.Estimates(optimizer.activeVertices)), Graph.Estimates(optimizer.activeVertices))
    ensures forall i :: 0 <= i < |run| - 1 ==> run[i].attempt.solved
    ensures if run != [] && !run[|run| - 1].attempt.solved then |run| <= iterations && count == 0 else |run| == iterations == count
  {
    hide *;
    run := [];
    ghost var first := Graph.Estimates(optimizer.activeVertices);
    NoRun(edges, optimizer.activeVertices, vlist, inverse, linearSolver, first);
    var result := Normal.OK;
    var i := 0;
    while i < iterations && result == Normal.OK
      invariant 0 <= i <= iterations && |run| == i
      invariant solver.Shapes() && solver.Buffers() && Arranged(solver, optimizer, np)
      invariant if i == 0 then Unbuilt(solver, edges, incident, np, |optimizer.ivMap|)
                else Built(solver, edges, np, |optimizer.ivMap|)
      invariant RunOk(edges, optimizer.activeVertices, vlist, inverse, linearSolver, run)
      invariant IsRun(run, first, Graph.Estimates(optimizer.activeVertices))
      invariant forall k :: 0 <= k < |run| ==> run[k].attempt.solved || (k == |run| - 1 && result == Normal.Fail)
      invariant result == Normal.OK || (result == Normal.Fail && run != [] && !run[|run| - 1].attempt.solved)
    {
      ghost var it;
      result, it := Solve(solver, optimizer, edges, incident, np, i, inverse, linearSolver);
      BuiltParts(solver, edges, np, |optimizer.ivMap|);
      OneMoreIteration(solver, optimizer, np, edges, optimizer.activeVertices, vlist, inverse, linearSolver, run, it, first);
      run := run + [it];
      i := i + 1;
    }
    count := if result == Normal.Fail then 0 else i;
  }

  lemma NoRun(edges: seq<Edge>, vs: seq<Graph.Vertex>, vlist: seq<Graph.Vertex>, inverse: Inverter,
              linearSolver: Normal.LinearSolver, s: State)
    ensures RunOk(edges, vs, vlist, inverse, linearSolver, []) && IsRun([], s, s)
  {
  }

  lemma OneMoreIteration(solver: BlockSolver, optimizer: Graph.SparseOptimizer, np: nat, edges: seq<Edge>, vs: seq<Graph.Vertex>,
                         vlist: seq<Graph.Vertex>, inverse: Inverter, linearSolver: Normal.LinearSolver, run: seq<Iteration>, it: Iteration,
                         first: State)
    requires Arranged(solver, optimizer, np) && optimizer.ivMap == Graph.IndexMapping(vlist) && np == |Graph.Restrict(vlist, false)|
    requires IterationOk(edges, vs, optimizer.ivMap, np, solver.Hpp.rowBlockIndices, solver.Hll.colBlockIndices, inverse,
                         linearSolver, it)
    requires RunOk(edges, vs, vlist, inverse, linearSolver, run) && IsRun(run, first, it.before)
    ensures RunOk(edges, vs, vlist, inverse, linearSolver, run + [it]) && IsRun(run + [it], first, it.after)
  {
    hide IterationOk, Graph.IndexMapping, Graph.Restrict, Graph.PartEnds;
    assert (run + [it])[..|run|] == run;
  }

  /** Every iteration of the run is right for the layouts that the index mapping gives. */
  ghost predicate RunOk(edges: seq<Edge>, vs: seq<Graph.Vertex>, vlist: seq<Graph.Vertex>, inverse: Inverter,
                        linearSolver: Normal.LinearSolver, run: seq<Iteration>)
  {
    var ivMap, np := Graph.IndexMapping(vlist), |Graph.Restrict(vlist, false)|;
    forall i :: 0 <= i < |run| ==>
      IterationOk(edges, vs, ivMap, np, Graph.PartEnds(ivMap, |ivMap|, false), Graph.PartEnds(ivMap, |ivMap|, true), inverse,
                  linearSolver, run[i])
  }

  /**
   Where the Hessian is positive definite and the landmark blocks can be inverted, a linear solver that can factorise
   definite matrices makes the iteration succeed, and the increment is exact.
   */
  lemma IncrementSucceeds(edges: seq<Edge>, ivMap: seq<Graph.Vertex>, np: nat, poseEnds: seq<nat>, landmarkEnds: seq<nat>,
                          inverse: Inverter, linearSolver: Normal.LinearSolver, s: State, t: Attempt)
    requires IncrementOk(edges, ivMap, np, poseEnds, landmarkEnds, inverse, linearSolver, s, t)
    requires Complete(linearSolver) && Inverts(landmarkEnds, t.blocks.hll, inverse)
    requires PositiveDefinite(Size(Graph.Ends(ivMap)), HessianAt(edges, ivMap, s))
    ensures t.solved && Solves(Size(Graph.Ends(ivMap)), HessianAt(edges, ivMap, s), t.x, GradientAt(edges, ivMap, s))
  {
    hide Stores, Inverts, IsAsked, PositiveDefinite, SymmetricMatrix, HessianAt, GradientAt, Solves;
    AskedIsDefinite(t.blocks, np, Graph.Ends(ivMap), poseEnds, landmarkEnds, HessianAt(edges, ivMap, s), inverse,
                    GradientAt(edges, ivMap, s), t.asked, t.rhs);
  }

  ghost predicate AlwaysSucceeds(linearSolver: Normal.LinearSolver) {
    forall n, A, b :: linearSolver(n, A, b).0
  }

  lemma NeverFails(edges: seq<Edge>, vs: seq<Graph.Vertex>, vlist: seq<Graph.Vertex>, inverse: Inverter,
                   linearSolver: Normal.LinearSolver, run: seq<Iteration>)
    requires RunOk(edges, vs, vlist, inverse, linearSolver, run) && AlwaysSucceeds(linearSolver)
    ensures forall i :: 0 <= i < |run| ==> run[i].attempt.solved
  {
    hide Stores, Inverts, IsAsked, HessianAt, GradientAt, Solves, Graph.StepTaken, Graph.Ends, Graph.PartEnds, Graph.IndexMapping;
  }

  lemma StartIsUnbuilt(solver: BlockSolver, vlist: seq<Graph.Vertex>, edges: seq<Edge>, incident: seq<seq<Edge>>, np: nat)
    requires EdgesFit(vlist, edges, incident) && np == |Graph.Restrict(vlist, false)|
    requires EmptyColumns(solver.Hpp.blockCols) && EmptyColumns(solver.Hpl.blockCols)
    requires EmptyColumns(solver.Hll.blockCols) && EmptyColumns(solver.Hschur.blockCols)
    requires solver.Hpp.hasStorage && solver.Hpl.hasStorage && solver.Hll.hasStorage
    ensures Unbuilt(solver, edges, incident, np, |Graph.IndexMapping(vlist)|)
  {
    hide Fresh, Incident, DistinctEdges, EmptyColumns, Graph.IndexMapping, Graph.Restrict;
  }

  lemma MappingMembers(vlist: seq<Graph.Vertex>)
    ensures forall i :: 0 <= i < |Graph.IndexMapping(vlist)| ==> Graph.IndexMapping(vlist)[i] in vlist
  {
    forall i | 0 <= i < |Graph.IndexMapping(vlist)| ensures Graph.IndexMapping(vlist)[i] in vlist {
      Graph.RestrictMembers(vlist, false, Graph.IndexMapping(vlist)[i]);
      Graph.RestrictMembers(vlist, true, Graph.IndexMapping(vlist)[i]);
    }
  }

  lemma LayoutsMonotone(all: seq<nat>, poseEnds: seq<nat>, landmarkEnds: seq<nat>)
    requires Layouts(all, |poseEnds|, poseEnds, landmarkEnds)
    ensures Monotone(poseEnds) && Monotone(landmarkEnds)
  {
    forall i, j | 0 <= i < j < |landmarkEnds| ensures landmarkEnds[i] <= landmarkEnds[j] {
      assert landmarkEnds[i] + Size(poseEnds) == all[|poseEnds| + i] && landmarkEnds[j] + Size(poseEnds) == all[|poseEnds| + j];
    }
  }

  /** There are as many pose blocks as free poses. */
  lemma PosesCounted(vlist: seq<Graph.Vertex>)
    ensures var ivMap := Graph.IndexMapping(vlist); |Graph.PartEnds(ivMap, |ivMap|, false)| == |Graph.Restrict(vlist, false)|
  {
    var poses, landmarks := Graph.Restrict(vlist, false), Graph.Restrict(vlist, true);
    forall v | v in poses ensures !v.marginalized {
      Graph.RestrictMembers(vlist, false, v);
    }
    forall v | v in landmarks ensures v.marginalized {
      Graph.RestrictMembers(vlist, true, v);
    }
    CountPoses(poses + landmarks, |poses|, |poses + landmarks|);
  }

  lemma {:induction false} CountPoses(ivMap: seq<Graph.Vertex>, np: nat, i: nat)
    requires i <= |ivMap| && forall k :: 0 <= k < i ==> (ivMap[k].marginalized <==> np <= k)
    ensures |Graph.PartEnds(ivMap, i, false)| == if i < np then i else np
  {
    if i > 0 {
      CountPoses(ivMap, np, i - 1);
      Graph.PartGrows(ivMap, i - 1, false);
    }
  }

  // ----- The smallest graph with a pose and a landmark

  /** A landmark seen from a pose, both on a line: the error is their difference less the measured one. */
  function Seen(s: State, distance: real): Measurement {
    var error := if |s| == 2 && |s[0]| == 1 && |s[1]| == 1 then s[1][0] - s[0][0] - distance else 0.0;
    Measurement([Some(0), Some(1)], 1, [Constant(-1.0), Constant(1.0)], Constant(1.0), i => error)
  }

  function Constant(c: real): Matrix {
    (i, j) => c
  }

  function Shift(x: Graph.Estimate, u: seq<real>): Graph.Estimate {
    if |x| == 1 && |u| == 1 then [x[0] + u[0]] else x
  }

  /** Builds the graph and runs two iterations on it, the first with and the second without building the structure. */
  method TwoIterations(distance: real, inverse: Inverter, linearSolver: Normal.LinearSolver)
    returns (count: int, optimizer: Graph.SparseOptimizer, ghost run: seq<Iteration>)
    requires Normal.SolvesOnSuccess(linearSolver)
    ensures if run != [] && !run[|run| - 1].attempt.solved then count == 0 else |run| == count == 2
    ensures AlwaysSucceeds(linearSolver) ==> count == 2
    ensures IsRun(run, [[0.0], [1.0]], Graph.Estimates(optimizer.activeVertices))
  {
    hide *;
    var pose := new Graph.Vertex(1, false, false, Shift, [0.0]);
    var landmark := new Graph.Vertex(1, false, true, Shift, [1.0]);
    var edge := new Edge([Some(0), Some(1)], s => Seen(s, distance));
    optimizer := new Graph.SparseOptimizer([pose, landmark]);
    OneEdgeFits(pose, landmark, edge, distance);
    StartEstimates(pose, landmark);
    count, run := Optimize(optimizer, [pose, landmark], [edge], [[edge]], 2, inverse, linearSolver);
  }

  lemma OneEdgeFits(pose: Graph.Vertex, landmark: Graph.Vertex, edge: Edge, distance: real)
    requires !pose.fixed && !pose.marginalized && !landmark.fixed && landmark.marginalized
    requires edge.ends == [Some(0), Some(1)] && |edge.hessian| == Triangle(2)
    requires forall s: State :: edge.linearize(s) == Seen(s, distance)
    ensures Graph.IndexMapping([pose, landmark]) == [pose, landmark]
    ensures Graph.Distinct([pose, landmark]) && EdgesFit([pose, landmark], [edge], [[edge]])
  {
    hide Fresh, Incident, Graph.IndexMapping, Graph.Restrict, Seen, Triangle;
    MapsInOrder(pose, landmark);
    EdgeIsFresh(edge, distance);
    EdgeIsIncident(edge);
  }

  lemma MapsInOrder(pose: Graph.Vertex, landmark: Graph.Vertex)
    requires !pose.fixed && !pose.marginalized && !landmark.fixed && landmark.marginalized
    ensures Graph.IndexMapping([pose, landmark]) == [pose, landmark] && |Graph.Restrict([pose, landmark], false)| == 1
  {
    var vlist := [pose, landmark];
    assert vlist[..1] == [pose] && [pose][..0] == [];
    assert Graph.Restrict([pose], false) == [pose] && Graph.Restrict([pose], true) == [];
    assert Graph.Restrict(vlist, false) == [pose] && Graph.Restrict(vlist, true) == [landmark];
  }

  lemma EdgeIsFresh(edge: Edge, distance: real)
    requires edge.ends == [Some(0), Some(1)] && |edge.hessian| == Triangle(2)
    requires forall s: State :: edge.linearize(s) == Seen(s, distance)
    ensures Fresh([edge], 1, 2)
  {
    hide Triangle;
  }

  lemma EdgeIsIncident(edge: Edge)
    requires edge.ends == [Some(0), Some(1)]
    ensures Incident([edge], [[edge]], 1, 2)
  {
    assert edge.ends[1] == Some(1);
    assert Touches(edge.ends, 1);
  }

  lemma StartEstimates(pose: Graph.Vertex, landmark: Graph.Vertex)
    requires pose.estimate == [0.0] && landmark.estimate == [1.0]
    ensures Graph.Estimates([pose, landmark]) == [[0.0], [1.0]]
  {
  }
}
