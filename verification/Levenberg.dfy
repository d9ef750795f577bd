/** Levenberg-Marquardt: damping control, trial steps that are kept or undone, and whole runs. */
module Levenberg {
  import opened Sums
  import opened Reals
  import opened LinearAlgebra
  import opened QuadraticModel
  import opened DampedNewton
  import opened NormalEquations
  import opened GraphOptimizer

  // ----- How the damping factor moves

  /** The factor by which the next rejection multiplies lambda, after k rejections. */
  ghost function NiAfter(ni: real, k: nat): real {
    if k == 0 then ni else Times(NiAfter(ni, k - 1), 2.0)
  }

  ghost function LambdaAfter(damp: real, ni: real, k: nat): real {
    if k == 0 then damp else Times(LambdaAfter(damp, ni, k - 1), NiAfter(ni, k - 1))
  }

  lemma {:induction false} Pow2Add(a: nat, b: nat)
    ensures Pow2(a + b) == Pow2(a) * Pow2(b)
  {
    if b > 0 {
      Pow2Add(a, b - 1);
      Reassociate(2.0, Pow2(b - 1), Pow2(a));
    }
  }

  /** Starting from ni = 2, k rejections in a row multiply lambda by exactly 2^(k(k+1)/2). */
  lemma {:induction false} LambdaGrowth(damp: real, k: nat)
    ensures LambdaAfter(damp, 2.0, k) == damp * Pow2(k * (k + 1) / 2)
  {
    hide Pow2;
    if k == 0 {
      Pow2Zero();
    } else {
      LambdaGrowth(damp, k - 1);
      NextPower(k);
      Triangular(k);
      Pow2Add((k - 1) * k / 2, k);
      Reassociate(damp, Pow2((k - 1) * k / 2), Pow2(k));
    }
  }

  lemma Pow2Zero()
    ensures Pow2(0) == 1.0
  {
  }

  lemma {:induction false} NextPower(k: nat)
    requires k > 0
    ensures NiAfter(2.0, k - 1) == Pow2(k)
  {
    if k > 1 {
      NextPower(k - 1);
    }
  }

  lemma Triangular(k: nat)
    requires k > 0
    ensures (k - 1) * k >= 0 && k * (k + 1) / 2 == (k - 1) * k / 2 + k
  {
    assert k * (k + 1) == (k - 1) * k + 2 * k;
  }

  ghost function Cube(x: real): real {
    x * x * x
  }

  /** The factor applied to lambda after a good step: 1 - (2 rho - 1)^3, cut off at 1/3 and 2/3. */
  ghost function GoodStepScale(rho: real): (r: real)
    ensures 1.0 / 3.0 <= r <= 2.0 / 3.0
    ensures 1.0 / 3.0 < Cube(2.0 * rho - 1.0) < 2.0 / 3.0 ==> r == 1.0 - Cube(2.0 * rho - 1.0)
    ensures Cube(2.0 * rho - 1.0) <= 1.0 / 3.0 ==> r == 2.0 / 3.0
    ensures Cube(2.0 * rho - 1.0) >= 2.0 / 3.0 ==> r == 1.0 / 3.0
  {
    Max(1.0 / 3.0, Min(1.0 - Cube(2.0 * rho - 1.0), 2.0 / 3.0))
  }

  method Cubed(x: real) returns (r: real)
    ensures r == Cube(x)
  {
    r := x * x * x;
  }

  method ScaleFactor(rho: real) returns (scaleFactor: real)
    ensures scaleFactor == GoodStepScale(rho)
  {
    hide Cube;
    var cubed := Cubed(2.0 * rho - 1.0);
    var alpha := Min(1.0 - cubed, 2.0 / 3.0);
    scaleFactor := Max(1.0 / 3.0, alpha);
  }

  lemma CubeMonotone(x: real, y: real)
    requires x <= y
    ensures Cube(x) <= Cube(y)
  {
    var d, s := y - x, x * x + x * y + y * y;
    assert s >= 0.0 by {
      SquareNonNegative(x);
      SquareNonNegative(y);
      SquareNonNegative(x + y);
      assert 2.0 * s == x * x + y * y + (x + y) * (x + y);
    }
    MulNonNegative(d, s);
    assert Cube(y) - Cube(x) == d * s;
  }

  /** The better the model predicted the decrease, the more the damping is relaxed. */
  lemma BetterStepLessDamping(rho: real, rho': real)
    requires rho <= rho'
    ensures GoodStepScale(rho') <= GoodStepScale(rho)
  {
    CubeMonotone(2.0 * rho - 1.0, 2.0 * rho' - 1.0);
  }

  /** Compares the decrease with the predicted one; a failed solve counts as an infinite cost. */
  method GainRatio(ok: bool, currentChi: real, tempChi: real, scale: real) returns (rho: real)
    requires scale > 0.0
    ensures rho > 0.0 <==> ok && tempChi < currentChi
    ensures rho == 0.0 <==> ok && tempChi == currentChi
    ensures ok ==> rho * scale == currentChi - tempChi
  {
    if !ok {
      return -1.0;
    }
    rho := (currentChi - tempChi) / scale;
    assert rho * scale == currentChi - tempChi;
  }

  /** One trial: its damping, the matrix that the linear solver was given, its answer, and the estimates this led to. */
  datatype Step = Step(damp: real, asked: Matrix, ok: bool, x: Vector, state: State)

  /** The trial is worth keeping. */
  ghost predicate Improves(problem: Problem, s: State, step: Step) {
    step.ok && problem.chi2(step.state) < problem.chi2(s)
  }

  /** Neither better nor worse: rho is exactly zero. */
  ghost predicate Stagnates(problem: Problem, s: State, step: Step) {
    step.ok && problem.chi2(step.state) == problem.chi2(s)
  }

  /** rho compares the decrease of the cost with x . (lambda x + b) and a little more. */
  ghost predicate IsRatio(problem: Problem, s: State, step: Step, rho: real) {
    rho * (Dot(problem.n, step.x, Plus(problem.rhs(s), Scale(step.damp, step.x))) + 0.001)
      == problem.chi2(s) - problem.chi2(step.state)
  }

  /** One iteration, from damping and growth rate to damping and growth rate, through its trials. */
  datatype Iteration = Iteration(before: State, damp: real, ni: real, steps: seq<Step>, rho: real,
                                 after: State, damp': real, ni': real, result: SolverResult)

  class OptimizationAlgorithmLevenberg {
    const optimizer: SparseOptimizer
    const system: BlockSystem
    const problem: Problem
    const tau: real
    const userLambdaInit: real
    const maxTrialsAfterFailure: int

    var currentLambda: real
    var ni: real
    var levenbergIterations: nat

    constructor (optimizer: SparseOptimizer, system: BlockSystem, problem: Problem, userLambdaInit: real, maxTrials: int)
      requires optimizer.Valid() && Fits(system, problem)
      ensures Valid() && currentLambda == -1.0 && ni == 2.0 && tau == 0.00001 && this.userLambdaInit == userLambdaInit
      ensures this.optimizer == optimizer && this.system == system && this.problem == problem && maxTrialsAfterFailure == maxTrials
    {
      this.optimizer, this.system, this.problem := optimizer, system, problem;
      this.userLambdaInit, maxTrialsAfterFailure, tau := userLambdaInit, maxTrials, 0.00001;
      currentLambda, ni, levenbergIterations := -1.0, 2.0, 0;
    }

    ghost predicate Valid()
      reads optimizer, system
    {
      optimizer.Valid() && Fits(system, problem) && tau >= 0.0
    }

    function State(): State
      reads optimizer, optimizer.activeVertices
    {
      Estimates(optimizer.activeVertices)
    }

    ghost function Stacks(): seq<seq<Estimate>>
      reads optimizer, optimizer.activeVertices
    {
      Backups(optimizer.activeVertices)
    }

    /** The user's value when positive, else tau times the largest magnitude on the diagonal. */
    method ComputeLambdaInit() returns (damp: real)
      requires Valid()
      ensures userLambdaInit > 0.0 ==> damp == userLambdaInit
      ensures userLambdaInit <= 0.0 ==> exists m :: damp == Times(tau, m) && IsMaxMagnitude(system.diagonal[..], m)
      ensures damp >= 0.0
    {
      if userLambdaInit > 0.0 {
        return userLambdaInit;
      }
      var maxDiagonal := 0.0;
      for k := 0 to system.diagonal.Length
        invariant IsMaxMagnitude(system.diagonal[..k], maxDiagonal)
      {
        assert system.diagonal[..k + 1] == system.diagonal[..k] + [system.diagonal[k]];
        maxDiagonal := Max(Abs(system.diagonal[k]), maxDiagonal);
      }
      assert system.diagonal[..system.diagonal.Length] == system.diagonal[..];
      MulNonNegative(tau, maxDiagonal);
      return Times(tau, maxDiagonal);
    }

    /** The decrease of the damped model, up to a factor. */
    method ComputeScale() returns (scale: real)
      requires Valid()
      ensures scale == Dot(system.n, system.x, Plus(system.b, Scale(currentLambda, system.x)))
    {
      var x, b := system.x, system.b;
      ghost var y := Plus(b, Scale(currentLambda, x));
      scale := 0.0;
      for j := 0 to system.n
        invariant scale == Sum(0, j, Products(x, y))
      {
        assert Products(x, y)(j) == x(j) * (currentLambda * x(j) + b(j));
        scale := scale + x(j) * (currentLambda * x(j) + b(j));
      }
      DotIsSum(system.n, x, y);
    }

    /** step is what a trial from s comes to: the estimates moved by what the linear solver left behind. */
    ghost predicate IsStep(s: State, step: Step)
      reads optimizer
    {
      && IsDampedSystem(problem, s, step.damp, step.asked)
      && (step.ok, step.x) == system.solver(problem.n, step.asked, problem.rhs(s))
      && StepTaken(optimizer.activeVertices, optimizer.ivMap, s, step.x, step.state)
    }

    method Save(ghost s: State)
      requires Valid() && s == State()
      modifies optimizer.activeVertices`backup
      ensures Valid() && State() == s && Saved(optimizer.activeVertices, s, old(Stacks()))
    {
      hide Saved;
      optimizer.Push();
    }

    /** Moves the estimates by the solution vector; the saved ones stay as they are. */
    method Move(ghost s: State, ghost stacks: seq<seq<Estimate>>)
      requires Valid() && s == State() && Saved(optimizer.activeVertices, s, stacks)
      modifies optimizer.activeVertices`estimate
      ensures Valid() && Saved(optimizer.activeVertices, s, stacks)
      ensures StepTaken(optimizer.activeVertices, optimizer.ivMap, s, system.x, State())
    {
      hide StepTaken, Saved;
      optimizer.Advance(system.x, s, stacks);
    }

    /** The denominator of the gain ratio; it is positive. */
    method PositiveScale(ok: bool, ghost s: State) returns (scale: real)
      requires Valid() && SystemFor(system, problem, s) && currentLambda >= 0.0
      requires ok ==> Solves(problem.n, Damped(problem.hessian(s), currentLambda), system.x, problem.rhs(s))
      ensures scale > 0.0
      ensures scale == if ok then Dot(problem.n, system.x, Plus(problem.rhs(s), Scale(currentLambda, system.x))) + 0.001 else 1.0
    {
      if !ok {
        return 1.0;
      }
      scale := ComputeScale();
      LevenbergScale(problem.n, problem.hessian(s), currentLambda, system.x, problem.rhs(s));
      scale := scale + 0.001;
    }

    lemma StillValid()
      requires optimizer.Valid() && Fits(system, problem) && tau >= 0.0
      ensures Valid()
    {
    }

    lemma ValidParts()
      requires Valid()
      ensures optimizer.Valid() && Fits(system, problem) && tau >= 0.0
    {
    }

    /** Solves the damped system; the estimates are not touched. */
    method SolveAt(ghost s: State, ghost stacks: seq<seq<Estimate>>) returns (ok: bool, ghost asked: Matrix)
      requires Valid() && s == State() && SystemFor(system, problem, s) && Saved(optimizer.activeVertices, s, stacks)
      modifies system`x, system.diagonal, system.diagonalBackup
      ensures Valid() && s == State() && SystemFor(system, problem, s) && Saved(optimizer.activeVertices, s, stacks)
      ensures ok ==> Solves(problem.n, Damped(problem.hessian(s), currentLambda), system.x, problem.rhs(s))
      ensures IsDampedSystem(problem, s, currentLambda, asked) && (ok, system.x) == system.solver(problem.n, asked, problem.rhs(s))
    {
      hide *;
      ValidParts();
      ok, asked := SolveDamped(system, problem, currentLambda, s);
      StillValid();
    }

    /** Lines up one trial: saves the estimates, solves the damped system and moves the estimates. */
    method TakeStep(ghost s: State) returns (ok: bool, tempChi: real, scale: real, ghost step: Step)
      requires Valid() && s == State() && SystemFor(system, problem, s) && currentLambda >= 0.0
      modifies system`x, system.diagonal, system.diagonalBackup
      modifies optimizer.activeVertices`estimate, optimizer.activeVertices`backup
      ensures Valid() && SystemFor(system, problem, s)
      ensures Saved(optimizer.activeVertices, s, old(Stacks()))
      ensures IsStep(s, step) && step.damp == currentLambda && step.ok == ok && step.state == State()
      ensures tempChi == problem.chi2(State()) && scale > 0.0
      ensures ok ==> scale == Dot(problem.n, step.x, Plus(problem.rhs(s), Scale(step.damp, step.x))) + 0.001
    {
      hide *;
      Save(s);
      ghost var asked;
      ok, asked := SolveAt(s, old(Stacks()));
      Move(s, old(Stacks()));
      tempChi := problem.chi2(State());
      scale := PositiveScale(ok, s);
      step := Step(currentLambda, asked, ok, system.x, State());
      StepIsTaken(s, step);
    }

    lemma StepIsTaken(s: State, step: Step)
      requires IsDampedSystem(problem, s, step.damp, step.asked)
      requires (step.ok, step.x) == system.solver(problem.n, step.asked, problem.rhs(s))
      requires StepTaken(optimizer.activeVertices, optimizer.ivMap, s, step.x, step.state)
      ensures IsStep(s, step)
    {
    }

    method Accept(rho: real, ghost s: State, ghost stacks: seq<seq<Estimate>>)
      requires Valid() && Saved(optimizer.activeVertices, s, stacks)
      modifies this`currentLambda, this`ni, optimizer.activeVertices`backup
      ensures Valid() && Stacks() == stacks && State() == old(State())
      ensures ni == 2.0 && currentLambda == Times(old(currentLambda), GoodStepScale(rho))
    {
      hide Estimates, Backups, Saved, Fits, GoodStepScale;
      var scaleFactor := ScaleFactor(rho);
      currentLambda := currentLambda * scaleFactor;
      ni := 2.0;
      optimizer.Keep(s, stacks);
    }

    method Reject(ghost s: State, ghost stacks: seq<seq<Estimate>>)
      requires Valid() && Saved(optimizer.activeVertices, s, stacks)
      modifies this`currentLambda, this`ni, optimizer.activeVertices`backup, optimizer.activeVertices`estimate
      ensures Valid() && Stacks() == stacks && State() == s
      ensures currentLambda == Times(old(currentLambda), old(ni)) && ni == Times(old(ni), 2.0)
    {
      hide Estimates, Backups, Saved, Fits;
      currentLambda := currentLambda * ni;
      ni := ni * 2.0;
      optimizer.Undo(s, stacks);
    }

    lemma Outcome(s: State, step: Step, scale: real, rho: real)
      requires step.ok ==> rho * scale == problem.chi2(s) - problem.chi2(step.state)
      requires step.ok ==> scale == Dot(problem.n, step.x, Plus(problem.rhs(s), Scale(step.damp, step.x))) + 0.001
      ensures Improves(problem, s, step) <==> step.ok && problem.chi2(step.state) < problem.chi2(s)
      ensures Stagnates(problem, s, step) <==> step.ok && problem.chi2(step.state) == problem.chi2(s)
      ensures step.ok ==> IsRatio(problem, s, step, rho)
    {
    }

    /** One trial: a step that does not lower the cost is undone completely and raises the damping. */
    method Trial(currentChi: real, ghost s: State) returns (rho: real, chi: real, ghost step: Step)
      requires Valid() && s == State() && SystemFor(system, problem, s) && currentLambda >= 0.0 && currentChi == problem.chi2(s)
      modifies this`currentLambda, this`ni, this`levenbergIterations, system`x, system.diagonal, system.diagonalBackup
      modifies optimizer.activeVertices`estimate, optimizer.activeVertices`backup
      ensures Valid() && SystemFor(system, problem, s) && Stacks() == old(Stacks()) && chi == problem.chi2(State())
      ensures levenbergIterations == old(levenbergIterations) + 1
      ensures IsStep(s, step) && step.damp == old(currentLambda)
      ensures (rho > 0.0 <==> Improves(problem, s, step)) && (rho == 0.0 <==> Stagnates(problem, s, step))
      ensures rho > 0.0 ==> State() == step.state && IsRatio(problem, s, step, rho)
      ensures rho > 0.0 ==> ni == 2.0 && currentLambda == Times(old(currentLambda), GoodStepScale(rho))
      ensures rho <= 0.0 ==> State() == s && currentLambda == Times(old(currentLambda), old(ni)) && ni == Times(old(ni), 2.0)
    {
      hide *;
      ghost var stacks := Stacks();
      var ok2, tempChi, scale;
      ok2, tempChi, scale, step := TakeStep(s);
      rho := GainRatio(ok2, currentChi, tempChi, scale);
      Outcome(s, step, scale, rho);
      levenbergIterations := levenbergIterations + 1;
      if rho > 0.0 {
        chi := tempChi;
        Accept(rho, s, stacks);
      } else {
        chi := currentChi;
        Reject(s, stacks);
      }
    }

    /** The trials in a row: each is damped as the rejections before it require, and only the last is not rejected. */
    ghost predicate AreTrials(s: State, damp: real, ni: real, steps: seq<Step>, terminate: (nat, nat) -> bool, iteration: nat)
      reads optimizer
    {
      && steps != []
      && (forall k :: 0 <= k < |steps| ==> IsStep(s, steps[k]) && steps[k].damp == LambdaAfter(damp, ni, k))
      && (forall k :: 0 <= k < |steps| - 1 ==> GoesOn(s, steps[k], terminate, iteration, k + 1))
    }

    /** After the given number of trials there will be another one. */
    ghost predicate GoesOn(s: State, step: Step, terminate: (nat, nat) -> bool, iteration: nat, trials: nat) {
      && !Improves(problem, s, step) && !Stagnates(problem, s, step)
      && trials < maxTrialsAfterFailure && !terminate(iteration, trials)
    }

    /** The damping and its growth rate after the last of the trials. */
    ghost predicate IsControlled(s: State, damp: real, ni: real, steps: seq<Step>, rho: real, damp': real, ni': real)
      requires steps != []
    {
      var last := steps[|steps| - 1];
      if Improves(problem, s, last) then
        IsRatio(problem, s, last, rho) && damp' == Times(last.damp, GoodStepScale(rho)) && ni' == 2.0
      else damp' == LambdaAfter(damp, ni, |steps|) && ni' == NiAfter(ni, |steps|)
    }

    ghost predicate IterationOk(it: Iteration, terminate: (nat, nat) -> bool, iteration: nat)
      reads optimizer
    {
      && AreTrials(it.before, it.damp, it.ni, it.steps, terminate, iteration)
      && IsControlled(it.before, it.damp, it.ni, it.steps, it.rho, it.damp', it.ni')
      && var last := it.steps[|it.steps| - 1];
      && !GoesOn(it.before, last, terminate, iteration, |it.steps|)
      && it.after == (if Improves(problem, it.before, last) then last.state else it.before)
      && it.result == if |it.steps| == maxTrialsAfterFailure || Stagnates(problem, it.before, last) then Terminate else OK
    }

    /**
     One iteration. Trials are repeated until one does not raise the cost, at most maxTrialsAfterFailure
     times, unless terminate asks to stop; it says what each of them was and what the iteration came to.
     */
    method Solve(iteration: nat, terminate: (nat, nat) -> bool) returns (result: SolverResult, ghost it: Iteration)
      requires Valid() && (iteration == 0 || currentLambda >= 0.0) && ni >= 0.0
      modifies this`currentLambda, this`ni, this`levenbergIterations
      modifies system`off, system`b, system`x, system.diagonal, system.diagonalBackup
      modifies optimizer.activeVertices`estimate, optimizer.activeVertices`backup
      ensures Valid() && currentLambda >= 0.0 && ni >= 0.0
      ensures Stacks() == old(Stacks()) && SystemFor(system, problem, old(State()))
      ensures IterationOk(it, terminate, iteration)
      ensures it.before == old(State()) && it.after == State() && it.result == result && levenbergIterations == |it.steps|
      ensures it.damp' == currentLambda && it.ni' == ni
      ensures if iteration == 0 then IsInitialLambda(problem.hessian(it.before), it.damp) && it.ni == 2.0
              else it.damp == old(currentLambda) && it.ni == old(ni)
    {
      hide *;
      ghost var s := State();
      var currentChi := problem.chi2(State());
      Prepare(iteration);
      ghost var damp, ni0 := currentLambda, ni;
      var rho;
      ghost var steps;
      rho, steps := Trials(currentChi, iteration, terminate, s);
      result := if levenbergIterations == maxTrialsAfterFailure || rho == 0.0 then Terminate else OK;
      it := Iteration(s, damp, ni0, steps, rho, State(), currentLambda, ni, result);
      Iterated(it, terminate, iteration);
    }

    lemma Iterated(it: Iteration, terminate: (nat, nat) -> bool, iteration: nat)
      requires AreTrials(it.before, it.damp, it.ni, it.steps, terminate, iteration)
      requires IsControlled(it.before, it.damp, it.ni, it.steps, it.rho, it.damp', it.ni')
      requires !GoesOn(it.before, it.steps[|it.steps| - 1], terminate, iteration, |it.steps|)
      requires it.after == if Improves(problem, it.before, it.steps[|it.steps| - 1]) then it.steps[|it.steps| - 1].state else it.before
      requires it.result == if |it.steps| == maxTrialsAfterFailure || Stagnates(problem, it.before, it.steps[|it.steps| - 1])
                            then Terminate else OK
      ensures IterationOk(it, terminate, iteration)
    {
      hide AreTrials, IsControlled, GoesOn, Improves, Stagnates;
    }

    /** The user's value, or tau times the largest magnitude on the diagonal of H. */
    ghost predicate IsInitialLambda(H: Matrix, damp: real) {
      if userLambdaInit > 0.0 then damp == userLambdaInit
      else exists m :: damp == Times(tau, m) && IsMaxMagnitude(seq(problem.n, i => H(i, i)), m)
    }

    /** Builds the system and, in the first iteration, initialises the damping. */
    method Prepare(iteration: nat)
      requires Valid() && (iteration == 0 || currentLambda >= 0.0)
      modifies this`currentLambda, this`ni, this`levenbergIterations, system`off, system`b, system.diagonal
      ensures Valid() && SystemFor(system, problem, State()) && currentLambda >= 0.0 && levenbergIterations == 0
      ensures State() == old(State()) && Stacks() == old(Stacks())
      ensures iteration == 0 ==> ni == 2.0 && IsInitialLambda(problem.hessian(State()), currentLambda)
      ensures iteration > 0 ==> ni == old(ni) && currentLambda == old(currentLambda)
    {
      var H := problem.hessian(State());
      system.BuildSystem(H, problem.rhs(State()));
      if iteration == 0 {
        assert system.diagonal[..] == seq(problem.n, i => H(i, i));
        currentLambda := ComputeLambdaInit();
        ni := 2.0;
      }
      levenbergIterations := 0;
    }

    /** The loop over the trials. */
    method Trials(currentChi: real, iteration: nat, terminate: (nat, nat) -> bool, ghost s: State)
      returns (rho: real, ghost steps: seq<Step>)
      requires Valid() && s == State() && SystemFor(system, problem, s) && currentLambda >= 0.0 && ni >= 0.0
      requires currentChi == problem.chi2(s)
      requires levenbergIterations == 0
      modifies this`currentLambda, this`ni, this`levenbergIterations, system`x, system.diagonal, system.diagonalBackup
      modifies optimizer.activeVertices`estimate, optimizer.activeVertices`backup
      ensures Valid() && SystemFor(system, problem, s) && Stacks() == old(Stacks()) && currentLambda >= 0.0 && ni >= 0.0
      ensures AreTrials(s, old(currentLambda), old(ni), steps, terminate, iteration) && levenbergIterations == |steps|
      ensures IsControlled(s, old(currentLambda), old(ni), steps, rho, currentLambda, ni)
      ensures !GoesOn(s, steps[|steps| - 1], terminate, iteration, |steps|)
      ensures State() == if Improves(problem, s, steps[|steps| - 1]) then steps[|steps| - 1].state else s
      ensures rho == 0.0 <==> Stagnates(problem, s, steps[|steps| - 1])
    {
      hide *;
      ghost var damp, ni0 := currentLambda, ni;
      BeforeTrials(s, damp, ni0, terminate, iteration);
      rho, steps := NextTrial(currentChi, s, [], damp, ni0, iteration, terminate);
      while rho < 0.0 && levenbergIterations < maxTrialsAfterFailure && !terminate(iteration, levenbergIterations)
        invariant Valid() && SystemFor(system, problem, s) && Stacks() == old(Stacks()) && currentLambda >= 0.0 && ni >= 0.0
        invariant steps != [] && levenbergIterations == |steps| && AreTrials(s, damp, ni0, steps, terminate, iteration)
        invariant IsControlled(s, damp, ni0, steps, rho, currentLambda, ni)
        invariant State() == if Improves(problem, s, steps[|steps| - 1]) then steps[|steps| - 1].state else s
        invariant rho > 0.0 <==> Improves(problem, s, steps[|steps| - 1])
        invariant rho == 0.0 <==> Stagnates(problem, s, steps[|steps| - 1])
        decreases maxTrialsAfterFailure - levenbergIterations
      {
        WillGoOn(s, damp, ni0, steps, rho, terminate, iteration);
        rho, steps := NextTrial(currentChi, s, steps, damp, ni0, iteration, terminate);
      }
      WillStop(s, steps[|steps| - 1], rho, terminate, iteration, |steps|);
    }

    /** The trials so far were all rejected, and there will be another one. */
    ghost predicate AllRejected(s: State, damp: real, ni0: real, steps: seq<Step>, terminate: (nat, nat) -> bool, iteration: nat)
      reads this, optimizer
    {
      && currentLambda == LambdaAfter(damp, ni0, |steps|) && ni == NiAfter(ni0, |steps|)
      && (forall k :: 0 <= k < |steps| ==> IsStep(s, steps[k]) && steps[k].damp == LambdaAfter(damp, ni0, k))
      && (forall k :: 0 <= k < |steps| ==> GoesOn(s, steps[k], terminate, iteration, k + 1))
    }

    lemma BeforeTrials(s: State, damp: real, ni0: real, terminate: (nat, nat) -> bool, iteration: nat)
      requires damp == currentLambda && ni0 == ni
      ensures AllRejected(s, damp, ni0, [], terminate, iteration)
    {
    }

    lemma WillGoOn(s: State, damp: real, ni0: real, steps: seq<Step>, rho: real, terminate: (nat, nat) -> bool, iteration: nat)
      requires AreTrials(s, damp, ni0, steps, terminate, iteration) && |steps| < maxTrialsAfterFailure && !terminate(iteration, |steps|)
      requires IsControlled(s, damp, ni0, steps, rho, currentLambda, ni)
      requires !Improves(problem, s, steps[|steps| - 1]) && !Stagnates(problem, s, steps[|steps| - 1])
      ensures AllRejected(s, damp, ni0, steps, terminate, iteration)
    {
      hide IsStep, Improves, Stagnates, LambdaAfter, NiAfter;
      forall k | 0 <= k < |steps| ensures GoesOn(s, steps[k], terminate, iteration, k + 1) {
        assert k < |steps| - 1 ==> GoesOn(s, steps[k], terminate, iteration, k + 1);
      }
    }

    lemma WillStop(s: State, last: Step, rho: real, terminate: (nat, nat) -> bool, iteration: nat, trials: nat)
      requires (rho > 0.0 <==> Improves(problem, s, last)) && (rho == 0.0 <==> Stagnates(problem, s, last))
      requires rho >= 0.0 || trials >= maxTrialsAfterFailure || terminate(iteration, trials)
      ensures !GoesOn(s, last, terminate, iteration, trials)
    {
      hide Improves, Stagnates;
    }

    method NextTrial(currentChi: real, ghost s: State, ghost before: seq<Step>, ghost damp: real, ghost ni0: real,
                     ghost iteration: nat, ghost terminate: (nat, nat) -> bool)
      returns (rho: real, ghost steps: seq<Step>)
      requires Valid() && s == State() && SystemFor(system, problem, s) && currentLambda >= 0.0 && ni >= 0.0
      requires currentChi == problem.chi2(s)
      requires levenbergIterations == |before| && AllRejected(s, damp, ni0, before, terminate, iteration)
      modifies this`currentLambda, this`ni, this`levenbergIterations, system`x, system.diagonal, system.diagonalBackup
      modifies optimizer.activeVertices`estimate, optimizer.activeVertices`backup
      ensures Valid() && SystemFor(system, problem, s) && Stacks() == old(Stacks()) && currentLambda >= 0.0 && ni >= 0.0
      ensures levenbergIterations == |before| + 1 == |steps| && AreTrials(s, damp, ni0, steps, terminate, iteration)
      ensures IsControlled(s, damp, ni0, steps, rho, currentLambda, ni)
      ensures State() == if Improves(problem, s, steps[|steps| - 1]) then steps[|steps| - 1].state else s
      ensures rho > 0.0 <==> Improves(problem, s, steps[|steps| - 1])
      ensures rho == 0.0 <==> Stagnates(problem, s, steps[|steps| - 1])
    {
      hide State, Stacks, SystemFor, Valid, IsStep, Improves, Stagnates, IsRatio, GoesOn;
      var chi;
      ghost var step;
      rho, chi, step := Trial(currentChi, s);
      steps := before + [step];
      if rho <= 0.0 {
        MulNonNegative(old(currentLambda), old(ni));
      } else {
        MulNonNegative(old(currentLambda), GoodStepScale(rho));
      }
    }

    /** The iterations of a run, each from where the one before ended; only the last need not be OK. */
    ghost predicate IsRun(run: seq<Iteration>, first: State, terminate: (nat, nat) -> bool)
      reads optimizer
    {
      forall i :: 0 <= i < |run| ==> IterationOk(run[i], terminate, i) && Follows(run, i, first) && !terminate(i, 0)
    }

    ghost predicate Follows(run: seq<Iteration>, i: nat, first: State)
      requires i < |run|
    {
      if i == 0 then run[0].before == first && IsInitialLambda(problem.hessian(first), run[0].damp) && run[0].ni == 2.0
      else
        && run[i].before == run[i - 1].after && run[i].damp == run[i - 1].damp' && run[i].ni == run[i - 1].ni'
        && run[i - 1].result == OK
    }

    lemma FollowsStays(run: seq<Iteration>, it: Iteration, i: nat, first: State)
      requires i < |run| && Follows(run, i, first)
      ensures Follows(run + [it], i, first)
    {
      hide IsInitialLambda;
      assert (run + [it])[i] == run[i] && (i > 0 ==> (run + [it])[i - 1] == run[i - 1]);
    }

    lemma OneMoreIteration(run: seq<Iteration>, it: Iteration, first: State, terminate: (nat, nat) -> bool)
      requires IsRun(run, first, terminate) && IterationOk(it, terminate, |run|) && !terminate(|run|, 0)
      requires Follows(run + [it], |run|, first)
      ensures IsRun(run + [it], first, terminate)
    {
      hide IterationOk, Follows;
      forall i | 0 <= i < |run + [it]|
        ensures IterationOk((run + [it])[i], terminate, i) && Follows(run + [it], i, first) && !terminate(i, 0)
      {
        if i < |run| {
          FollowsStays(run, it, i, first);
        }
      }
    }

    lemma IterationLowers(it: Iteration, terminate: (nat, nat) -> bool, iteration: nat)
      requires IterationOk(it, terminate, iteration)
      ensures problem.chi2(it.after) < problem.chi2(it.before) || it.after == it.before
    {
    }

    /**
     A whole run: the number of its iterations and what each of them was. The robust cost never increases and
     every backup stack ends as it started.
     */
    method Optimize(iterations: nat, terminate: (nat, nat) -> bool) returns (cjIterations: int, ghost run: seq<Iteration>)
      requires Valid() && ni >= 0.0
      modifies this`currentLambda, this`ni, this`levenbergIterations
      modifies system`off, system`b, system`x, system.diagonal, system.diagonalBackup
      modifies optimizer.activeVertices`estimate, optimizer.activeVertices`backup
      ensures Valid() && Stacks() == old(Stacks())
      ensures IsRun(run, old(State()), terminate) && State() == if run == [] then old(State()) else run[|run| - 1].after
      ensures if optimizer.ivMap == [] then cjIterations == -1 && run == [] else cjIterations == |run| <= iterations
      ensures optimizer.ivMap != [] ==>
        |run| == iterations || terminate(|run|, 0) || (run != [] && run[|run| - 1].result != OK)
      ensures problem.chi2(State()) < problem.chi2(old(State())) || State() == old(State())
    {
      hide *;
      run := [];
      EmptyRun(State(), terminate);
      if optimizer.ivMap == [] {
        return -1, run;
      }
      cjIterations := 0;
      var result := OK;
      while cjIterations < iterations && !terminate(cjIterations, 0) && result == OK
        invariant Valid() && Stacks() == old(Stacks()) && 0 <= cjIterations <= iterations && ni >= 0.0
        invariant cjIterations == |run| && IsRun(run, old(State()), terminate)
        invariant run == [] ==> State() == old(State()) && result == OK
        invariant run != [] ==> State() == run[|run| - 1].after && result == run[|run| - 1].result && currentLambda >= 0.0
        invariant run != [] ==> currentLambda == run[|run| - 1].damp' && ni == run[|run| - 1].ni'
        invariant problem.chi2(State()) < problem.chi2(old(State())) || State() == old(State())
      {
        ghost var it;
        result, it := Solve(cjIterations, terminate);
        IterationLowers(it, terminate, cjIterations);
        NextFollows(run, it, old(State()));
        OneMoreIteration(run, it, old(State()), terminate);
        run := run + [it];
        cjIterations := cjIterations + 1;
      }
    }

    /** There is always one trial, and never more than the maximum otherwise. */
    lemma NumberOfTrials(it: Iteration, terminate: (nat, nat) -> bool, iteration: nat)
      requires IterationOk(it, terminate, iteration)
      ensures |it.steps| == 1 || |it.steps| <= maxTrialsAfterFailure
    {
      if |it.steps| > 1 {
        assert GoesOn(it.before, it.steps[|it.steps| - 2], terminate, iteration, |it.steps| - 1);
      }
    }

    lemma NothingSolved(it: Iteration, terminate: (nat, nat) -> bool, iteration: nat)
      requires IterationOk(it, terminate, iteration) && forall n, A, b :: !system.solver(n, A, b).0
      ensures it.after == it.before && (|it.steps| != maxTrialsAfterFailure ==> it.result == OK)
    {
      hide LambdaAfter, NiAfter;
      assert IsStep(it.before, it.steps[|it.steps| - 1]);
    }

    lemma EmptyRun(first: State, terminate: (nat, nat) -> bool)
      ensures IsRun([], first, terminate)
    {
    }

    lemma NextFollows(run: seq<Iteration>, it: Iteration, first: State)
      requires run == [] ==> it.before == first && IsInitialLambda(problem.hessian(first), it.damp) && it.ni == 2.0
      requires run != [] ==> it.before == run[|run| - 1].after && it.damp == run[|run| - 1].damp' && it.ni == run[|run| - 1].ni'
      requires run != [] ==> run[|run| - 1].result == OK
      ensures Follows(run + [it], |run|, first)
    {
      hide IsInitialLambda;
    }
  }

  /**
   With no trials after a failure allowed, the first and only trial is rejected here because the linear solver
   fails, and still the result is OK: one trial is one more than none.
   */
  method OkAfterRejection(optimizer: SparseOptimizer, system: BlockSystem, problem: Problem)
    returns (algorithm: OptimizationAlgorithmLevenberg, result: SolverResult)
    requires optimizer.Valid() && Fits(system, problem) && forall n, A, b :: !system.solver(n, A, b).0
    modifies system`off, system`b, system`x, system.diagonal, system.diagonalBackup
    modifies optimizer.activeVertices`estimate, optimizer.activeVertices`backup
    ensures algorithm.maxTrialsAfterFailure == 0 && algorithm.optimizer == optimizer && algorithm.levenbergIterations == 1
    ensures Estimates(optimizer.activeVertices) == old(Estimates(optimizer.activeVertices)) && result == OK
  {
    algorithm := new OptimizationAlgorithmLevenberg(optimizer, system, problem, 1.0, 0);
    ghost var it;
    result, it := algorithm.Solve(0, (i: nat, k: nat) => false);
    algorithm.NumberOfTrials(it, (i: nat, k: nat) => false, 0);
    algorithm.NothingSolved(it, (i: nat, k: nat) => false, 0);
  }

  ghost predicate IsMaxMagnitude(d: seq<real>, m: real) {
    m >= 0.0 && (forall k :: 0 <= k < |d| ==> Abs(d[k]) <= m) && (m > 0.0 ==> exists k :: 0 <= k < |d| && Abs(d[k]) == m)
  }
}
