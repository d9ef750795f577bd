/** Powell's dogleg: steps confined to a trust region whose radius follows the quality of the model. */
module Dogleg {
  import opened Options
  import opened Reals
  import opened LinearAlgebra
  import opened QuadraticModel
  import opened DampedNewton
  import opened DoglegStep
  import opened NormalEquations
  import opened GraphOptimizer

  ghost function Halved(delta: real, k: nat): real {
    if k == 0 then delta else 0.5 * Halved(delta, k - 1)
  }

  /** k halvings divide the radius by 2^k. */
  lemma {:induction false} HalvedIsQuotient(delta: real, k: nat)
    ensures Halved(delta, k) * Pow2(k) == delta
    ensures delta > 0.0 ==> Halved(delta, k) > 0.0
  {
    if k > 0 {
      HalvedIsQuotient(delta, k - 1);
      Reassociate(0.5 * Halved(delta, k - 1), 2.0, Pow2(k - 1));
    }
  }

  /** The radius after a trial with gain ratio rho whose step had the given length. */
  ghost function NextDelta(delta: real, rho: real, length: real): (r: real)
    ensures rho < 0.25 ==> r == 0.5 * delta
    ensures 0.25 <= rho <= 0.75 ==> r == delta
    ensures rho > 0.75 ==> r >= delta && r >= 3.0 * length && (r == delta || r == 3.0 * length)
    ensures delta > 0.0 ==> r > 0.0
  {
    if rho > 0.75 then Max(delta, 3.0 * length) else if rho < 0.25 then 0.5 * delta else delta
  }

  method NextRadius(delta: real, rho: real, length: real) returns (r: real)
    ensures r == NextDelta(delta, rho, length)
  {
    r := delta;
    if rho > 0.75 {
      r := Max(delta, 3.0 * length);
    } else if rho < 0.25 {
      r := delta * 0.5;
    }
  }

  const MIN_LAMBDA := 0.000000000001
  const MAX_LAMBDA := 1000.0
  const TINY_GAIN := 0.000000000001

  /** The predicted gain, kept away from zero. */
  ghost function Denominator(linearGain: real): (r: real)
    ensures r != 0.0
    ensures linearGain >= TINY_GAIN || linearGain <= -TINY_GAIN ==> r == linearGain
    ensures -TINY_GAIN < linearGain < TINY_GAIN ==> r == TINY_GAIN
  {
    if Abs(linearGain) < TINY_GAIN then TINY_GAIN else linearGain
  }

  /** The ratio of the actual to the predicted gain has the sign of the actual one. */
  lemma RatioSign(nonLinearGain: real, linearGain: real)
    requires linearGain >= 0.0
    ensures Denominator(linearGain) > 0.0
    ensures nonLinearGain / Denominator(linearGain) > 0.0 <==> nonLinearGain > 0.0
  {
    var d := Denominator(linearGain);
    var r := nonLinearGain / d;
    assert r * d == nonLinearGain;
  }

  /** The ratio of the two gains. */
  method Ratio(nonLinearGain: real, linearGain: real) returns (rho: real)
    requires linearGain >= 0.0
    ensures rho * Denominator(linearGain) == nonLinearGain && (rho > 0.0 <==> nonLinearGain > 0.0)
  {
    RatioSign(nonLinearGain, linearGain);
    var gain := linearGain;
    if Abs(gain) < TINY_GAIN {
      gain := TINY_GAIN;
    }
    rho := nonLinearGain / gain;
    assert rho * gain == nonLinearGain;
  }

  /** After that many more failures the damping has passed its bound. */
  ghost predicate WithinReach(damp: real, lambda0: real, factor: real, left: int) {
    damp + (left as real) * (lambda0 * (factor - 1.0)) > MAX_LAMBDA
  }

  lemma Growth(damp: real, factor: real, lambda0: real, left: nat)
    requires damp >= lambda0 > 0.0 && factor > 1.0
    requires WithinReach(damp, lambda0, factor, left)
    requires Times(damp, factor) <= MAX_LAMBDA
    ensures left > 0 && Times(damp, factor) > damp
    ensures WithinReach(Times(damp, factor), lambda0, factor, left - 1)
  {
    var step := lambda0 * (factor - 1.0);
    MulPositive(lambda0, factor - 1.0);
    assert damp * factor >= damp + step by {
      MulNonNegative(damp - lambda0, factor - 1.0);
      Distribute(factor - 1.0, damp, lambda0);
      Distribute(damp, factor, 1.0);
    }
    if left > 0 {
      assert ((left - 1) as real) * step == (left as real) * step - step;
    }
  }

  lemma EnoughSteps(damp: real, factor: real) returns (count: nat)
    requires damp > 0.0 && factor > 1.0
    ensures WithinReach(damp, damp, factor, count)
  {
    var step := damp * (factor - 1.0);
    MulPositive(damp, factor - 1.0);
    var q := MAX_LAMBDA / step;
    DivideNonNegative(MAX_LAMBDA, step);
    count := q.Floor + 1;
    MulPositive(count as real - q, step);
    Distribute(step, count as real, q);
  }

  /** lambda after it was raised k times. */
  ghost function Raised(damp: real, factor: real, k: nat): real {
    if k == 0 then damp else Times(Raised(damp, factor, k - 1), factor)
  }

  /** One run of the linear solver: the damping, the matrix it was given, and its answer. */
  datatype Attempt = Attempt(damping: real, asked: Matrix, ok: bool, x: Vector)

  /** One trial: the radius, the step chosen within it, the estimates it led to, its gain ratio and its length. */
  datatype Trial = Trial(delta: real, kind: StepKind, step: Vector, state: State, rho: real, length: real)

  /** The radius after the trial. */
  ghost function DeltaAfter(t: Trial): (r: real)
    ensures t.delta > 0.0 ==> r > 0.0
  {
    if t.kind == Undefined then t.delta else NextDelta(t.delta, t.rho, t.length)
  }

  /** One iteration, from radius and damping to radius and damping, through the solver runs and the trials. */
  datatype Iteration = Iteration(before: State, delta: real, damp: real, wasPD: bool,
                                 cauchy: Option<Vector>, alpha: real, attempts: seq<Attempt>, trials: seq<Trial>,
                                 after: State, delta': real, damp': real, wasPD': bool, result: SolverResult)

  class OptimizationAlgorithmDogleg {
    const optimizer: SparseOptimizer
    const system: BlockSystem
    const problem: Problem
    const sqrt: real -> real
    const userDeltaInit: real
    const initialLambda: real
    const lambdaFactor: real
    const maxTrialsAfterFailure: int

    var delta: real
    var currentLambda: real
    var wasPDInAllIterations: bool
    var lastStep: StepKind
    var lastNumTries: nat
    var hdl: Vector

    constructor (optimizer: SparseOptimizer, system: BlockSystem, problem: Problem, sqrt: real -> real,
                 userDeltaInit: real, initialLambda: real, lambdaFactor: real, maxTrials: int)
      requires optimizer.Valid() && Fits(system, problem) && IsSqrt(sqrt)
      requires userDeltaInit > 0.0 && initialLambda > 0.0 && lambdaFactor > 1.0
      ensures Valid() && delta == userDeltaInit && currentLambda == 0.0 && wasPDInAllIterations
      ensures lastStep == Undefined && lastNumTries == 0 && maxTrialsAfterFailure == maxTrials
      ensures this.userDeltaInit == userDeltaInit && this.initialLambda == initialLambda && this.lambdaFactor == lambdaFactor
      ensures this.optimizer == optimizer && this.system == system && this.problem == problem
    {
      this.optimizer, this.system, this.problem, this.sqrt := optimizer, system, problem, sqrt;
      this.userDeltaInit, this.initialLambda, this.lambdaFactor := userDeltaInit, initialLambda, lambdaFactor;
      maxTrialsAfterFailure, delta, currentLambda := maxTrials, userDeltaInit, 0.0;
      wasPDInAllIterations, lastStep, lastNumTries, hdl := true, Undefined, 0, i => 0.0;
    }

    ghost predicate Valid()
      reads optimizer, system
    {
      && optimizer.Valid() && Fits(system, problem) && IsSqrt(sqrt)
      && userDeltaInit > 0.0 && initialLambda > 0.0 && lambdaFactor > 1.0
    }

    function State(): State
      reads optimizer, optimizer.activeVertices
    {
      Estimates(optimizer.activeVertices)
    }

    ghost function Stacks(): seq<seq<Estimate>>
      reads optimizer, optimizer.activeVertices
    {
      Backups(optimizer.activeVertices)
    }

    ghost predicate IsAttempt(s: State, a: Attempt) {
      IsDampedSystem(problem, s, a.damping, a.asked) && (a.ok, a.x) == system.solver(problem.n, a.asked, problem.rhs(s))
    }

    /**
     The attempts before the last failed. The damping grows from one to the next; the first is undamped
     unless one had failed earlier.
     */
    ghost predicate AreAttempts(s: State, damp: real, wasPD: bool, attempts: seq<Attempt>) {
      forall k :: 0 <= k < |attempts| ==>
        && IsAttempt(s, attempts[k])
        && attempts[k].damping == (if k == 0 && wasPD then 0.0 else Raised(damp, lambdaFactor, k))
        && (k < |attempts| - 1 ==> !attempts[k].ok && Raised(damp, lambdaFactor, k + 1) <= MAX_LAMBDA)
    }

    /** lambda after a success that followed a failure: divided by half the factor, but not below its bound. */
    ghost function Eased(damp: real): real {
      if lambdaFactor > 1.0 then Max(MIN_LAMBDA, damp / (0.5 * lambdaFactor)) else damp
    }

    /** The damping that the attempts leave behind. */
    ghost predicate DampingAfter(damp: real, wasPD: bool, attempts: seq<Attempt>, damp': real, wasPD': bool)
      requires attempts != []
    {
      var m := |attempts|;
      && wasPD' == (wasPD && m == 1 && attempts[0].ok)
      && if attempts[m - 1].ok then
           damp' == if wasPD' then damp else Eased(Raised(damp, lambdaFactor, m - 1))
         else Raised(damp, lambdaFactor, m) > MAX_LAMBDA && damp' == MAX_LAMBDA
    }

    /** While the solver fails: all attempts so far did, and lambda has been raised after each. */
    ghost predicate Failing(s: State, damp: real, wasPD: bool, attempts: seq<Attempt>)
      reads this`currentLambda, this`wasPDInAllIterations
    {
      && AreAttempts(s, damp, wasPD, attempts) && (forall k :: 0 <= k < |attempts| ==> !attempts[k].ok)
      && currentLambda == Raised(damp, lambdaFactor, |attempts|) && (attempts != [] ==> currentLambda <= MAX_LAMBDA)
      && wasPDInAllIterations == (wasPD && attempts == [])
    }

    /**
     Solves for the Gauss-Newton step. While the solver fails the damping grows, up to a bound beyond
     which the iteration fails; a success after a failure relaxes it again.
     */
    method SolveGaussNewton(ghost s: State) returns (ok: bool, ghost attempts: seq<Attempt>)
      requires Valid() && SystemFor(system, problem, s) && currentLambda > 0.0
      modifies this`currentLambda, this`wasPDInAllIterations, system`x, system.diagonal, system.diagonalBackup
      ensures Valid() && SystemFor(system, problem, s) && currentLambda > 0.0
      ensures attempts != [] && AreAttempts(s, old(currentLambda), old(wasPDInAllIterations), attempts)
      ensures DampingAfter(old(currentLambda), old(wasPDInAllIterations), attempts, currentLambda, wasPDInAllIterations)
      ensures attempts[|attempts| - 1].ok == ok && attempts[|attempts| - 1].x == system.x
      ensures ok ==> attempts[|attempts| - 1].damping >= 0.0
      ensures ok ==> Solves(problem.n, Damped(problem.hessian(s), attempts[|attempts| - 1].damping), system.x, problem.rhs(s))
    {
      hide *;
      ghost var damp, wasPD := currentLambda, wasPDInAllIterations;
      ghost var left := Reach();
      BeforeAttempts(s);
      attempts := [];
      ok := false;
      var failed := false;
      while !ok && !failed
        invariant Valid() && SystemFor(system, problem, s) && currentLambda > 0.0
        invariant !ok && !failed ==> Failing(s, damp, wasPD, attempts)
        invariant !ok && !failed ==> currentLambda >= damp > 0.0 && WithinReach(currentLambda, damp, lambdaFactor, left)
        invariant ok || failed ==> attempts != [] && AreAttempts(s, damp, wasPD, attempts)
        invariant ok || failed ==> DampingAfter(damp, wasPD, attempts, currentLambda, wasPDInAllIterations)
        invariant ok || failed ==> attempts[|attempts| - 1].ok == ok && attempts[|attempts| - 1].x == system.x
        invariant ok ==> attempts[|attempts| - 1].damping >= 0.0
        invariant ok ==> Solves(problem.n, Damped(problem.hessian(s), attempts[|attempts| - 1].damping), system.x, problem.rhs(s))
        decreases if ok || failed then 0 else left + 1
      {
        ok, failed, attempts, left := NextAttempt(s, damp, wasPD, attempts, left);
      }
    }

    lemma BeforeAttempts(s: State)
      ensures Failing(s, currentLambda, wasPDInAllIterations, [])
    {
    }

    lemma Reach() returns (left: nat)
      requires Valid() && currentLambda > 0.0
      ensures WithinReach(currentLambda, currentLambda, lambdaFactor, left)
    {
      left := EnoughSteps(currentLambda, lambdaFactor);
    }

    /** One more attempt, and what becomes of the damping. */
    method NextAttempt(ghost s: State, ghost damp: real, ghost wasPD: bool, ghost before: seq<Attempt>, ghost left: nat)
      returns (ok: bool, failed: bool, ghost attempts: seq<Attempt>, ghost remaining: nat)
      requires Valid() && SystemFor(system, problem, s) && Failing(s, damp, wasPD, before)
      requires currentLambda >= damp > 0.0 && WithinReach(currentLambda, damp, lambdaFactor, left)
      modifies this`currentLambda, this`wasPDInAllIterations, system`x, system.diagonal, system.diagonalBackup
      ensures Valid() && SystemFor(system, problem, s) && currentLambda > 0.0 && attempts != [] && !(ok && failed)
      ensures AreAttempts(s, damp, wasPD, attempts) && attempts[|attempts| - 1].ok == ok && attempts[|attempts| - 1].x == system.x
      ensures !ok && !failed ==> Failing(s, damp, wasPD, attempts) && currentLambda >= damp && remaining < left
      ensures !ok && !failed ==> WithinReach(currentLambda, damp, lambdaFactor, remaining)
      ensures ok || failed ==> DampingAfter(damp, wasPD, attempts, currentLambda, wasPDInAllIterations)
      ensures ok ==> attempts[|attempts| - 1].damping >= 0.0
      ensures ok ==> Solves(problem.n, Damped(problem.hessian(s), attempts[|attempts| - 1].damping), system.x, problem.rhs(s))
    {
      hide *;
      ghost var attempt;
      FailingParts(s, damp, wasPD, before);
      ok, attempt := SolveOnce(s);
      OneMoreAttempt(s, damp, wasPD, before, attempt);
      attempts := before + [attempt];
      failed, remaining := false, left;
      if !wasPDInAllIterations {
        failed, remaining := ControlDamping(ok, damp, left, s);
      }
      DampingMoved(s, damp, wasPD, before, attempt, currentLambda, wasPDInAllIterations, failed);
    }

    lemma FailingParts(s: State, damp: real, wasPD: bool, attempts: seq<Attempt>)
      requires Failing(s, damp, wasPD, attempts)
      ensures AreAttempts(s, damp, wasPD, attempts) && (forall k :: 0 <= k < |attempts| ==> !attempts[k].ok)
      ensures currentLambda == Raised(damp, lambdaFactor, |attempts|)
      ensures if attempts == [] then currentLambda == damp else currentLambda <= MAX_LAMBDA
      ensures wasPDInAllIterations == (wasPD && attempts == [])
    {
    }

    lemma OneMoreAttempt(s: State, damp: real, wasPD: bool, before: seq<Attempt>, a: Attempt)
      requires AreAttempts(s, damp, wasPD, before) && IsAttempt(s, a) && forall k :: 0 <= k < |before| ==> !before[k].ok
      requires before != [] ==> Raised(damp, lambdaFactor, |before|) <= MAX_LAMBDA
      requires a.damping == if before == [] && wasPD then 0.0 else Raised(damp, lambdaFactor, |before|)
      ensures AreAttempts(s, damp, wasPD, before + [a])
    {
      hide IsAttempt, Raised;
      var attempts := before + [a];
      forall k | 0 <= k < |attempts|
        ensures IsAttempt(s, attempts[k]) && attempts[k].damping == if k == 0 && wasPD then 0.0 else Raised(damp, lambdaFactor, k)
        ensures k < |attempts| - 1 ==> !attempts[k].ok && Raised(damp, lambdaFactor, k + 1) <= MAX_LAMBDA
      {
        if k < |before| {
          assert attempts[k] == before[k];
          if k == |before| - 1 {
            assert k + 1 == |before|;
          }
        } else {
          assert k == |before|;
        }
      }
    }

    lemma DampingMoved(s: State, damp: real, wasPD: bool, before: seq<Attempt>, a: Attempt, damp': real, wasPD': bool, failed: bool)
      requires AreAttempts(s, damp, wasPD, before + [a]) && forall k :: 0 <= k < |before| ==> !before[k].ok
      requires wasPD' == (wasPD && before == [] && a.ok)
      requires wasPD' ==> !failed && damp' == damp && before == []
      requires !wasPD' && a.ok ==> damp' == Eased(Raised(damp, lambdaFactor, |before|))
      requires !a.ok ==> (failed <==> Times(Raised(damp, lambdaFactor, |before|), lambdaFactor) > MAX_LAMBDA)
      requires !a.ok ==> damp' == if failed then MAX_LAMBDA else Times(Raised(damp, lambdaFactor, |before|), lambdaFactor)
      requires damp' == currentLambda && wasPD' == wasPDInAllIterations
      ensures a.ok || failed ==> DampingAfter(damp, wasPD, before + [a], damp', wasPD')
      ensures !a.ok && !failed ==> Failing(s, damp, wasPD, before + [a])
    {
      hide AreAttempts, Times, Eased;
    }

    /** Relaxes the damping after a success and raises it after a failure, up to the bound. */
    method ControlDamping(ok: bool, ghost lambda0: real, ghost left: nat, ghost s: State)
      returns (failed: bool, ghost remaining: nat)
      requires Valid() && SystemFor(system, problem, s) && currentLambda > 0.0 && !wasPDInAllIterations
      requires !ok ==> currentLambda >= lambda0 > 0.0 && WithinReach(currentLambda, lambda0, lambdaFactor, left)
      modifies this`currentLambda
      ensures Valid() && SystemFor(system, problem, s) && currentLambda > 0.0
      ensures failed <==> !ok && Times(old(currentLambda), lambdaFactor) > MAX_LAMBDA
      ensures ok ==> currentLambda == Eased(old(currentLambda))
      ensures failed ==> currentLambda == MAX_LAMBDA
      ensures !ok && !failed ==> currentLambda == Times(old(currentLambda), lambdaFactor) >= lambda0
      ensures !ok && !failed ==> remaining < left && WithinReach(currentLambda, lambda0, lambdaFactor, remaining)
    {
      hide Times, WithinReach;
      remaining := left;
      failed := false;
      if ok {
        currentLambda := Max(MIN_LAMBDA, currentLambda / (0.5 * lambdaFactor));
      } else {
        var raised := Times(currentLambda, lambdaFactor);
        if raised > MAX_LAMBDA {
          currentLambda := MAX_LAMBDA;
          return true, left;
        }
        Growth(currentLambda, lambdaFactor, lambda0, left);
        currentLambda := raised;
        remaining := left - 1;
      }
    }

    /** One attempt, damped only after an earlier failure. */
    method SolveOnce(ghost s: State) returns (ok: bool, ghost attempt: Attempt)
      requires Valid() && SystemFor(system, problem, s) && currentLambda > 0.0
      modifies this`wasPDInAllIterations, system`x, system.diagonal, system.diagonalBackup
      ensures Valid() && SystemFor(system, problem, s)
      ensures IsAttempt(s, attempt) && attempt.damping == if old(wasPDInAllIterations) then 0.0 else currentLambda
      ensures attempt.ok == ok && attempt.x == system.x
      ensures ok ==> Solves(problem.n, Damped(problem.hessian(s), attempt.damping), system.x, problem.rhs(s))
      ensures wasPDInAllIterations == (old(wasPDInAllIterations) && ok)
    {
      hide Solves, Damped, IsDampedSystem;
      ghost var damping, asked := 0.0, system.Dense();
      if wasPDInAllIterations {
        ok, asked := SolveUndamped(system, problem, s);
      } else {
        damping := currentLambda;
        ok, asked := SolveDamped(system, problem, currentLambda, s);
      }
      attempt := Attempt(damping, asked, ok, system.x);
      wasPDInAllIterations := wasPDInAllIterations && ok;
    }

    /** The minimiser of the model along b; none when b^T H b vanishes. */
    method CauchyStep(ghost s: State) returns (cauchy: Option<Vector>, ghost alpha: real)
      requires Valid() && SystemFor(system, problem, s)
      ensures IsCauchy(s, cauchy, alpha)
    {
      var n, b := system.n, system.b;
      ghost var H := problem.hessian(s);
      var curvature := Dot(n, MatVec(n, system.Dense(), b), b);
      assert curvature == Form(n, H, b, b) by {
        DenseProduct(system, problem, s, b);
        DotSymmetric(n, b, MatVec(n, H, b));
      }
      if curvature == 0.0 {
        return None, 0.0;
      }
      var a := SquaredNorm(n, b) / curvature;
      assert Form(n, H, b, b) >= 0.0 by {
        assert PositiveSemidefinite(n, H);
      }
      DivideNonNegative(SquaredNorm(n, b), curvature);
      return Some(Scale(a, b)), a;
    }

    method LinearGain(ghost s: State) returns (linearGain: real)
      requires Valid() && SystemFor(system, problem, s)
      ensures linearGain == Gain(problem.n, problem.hessian(s), problem.rhs(s), hdl)
    {
      var n := system.n;
      var auxVector := MatVec(n, system.Dense(), hdl);
      linearGain := -1.0 * Dot(n, auxVector, hdl) + 2.0 * Dot(n, system.b, hdl);
      DenseProduct(system, problem, s, hdl);
      DotSymmetric(n, hdl, MatVec(n, problem.hessian(s), hdl));
    }

    /** What the trial may rely on: the Gauss-Newton step and the Cauchy step for the state s. */
    ghost predicate Ready(s: State, cauchy: Option<Vector>, alpha: real, damping: real)
      reads this`delta, system, system.diagonal
    {
      && SystemFor(system, problem, s) && delta > 0.0 && damping >= 0.0
      && Solves(problem.n, Damped(problem.hessian(s), damping), system.x, problem.rhs(s))
      && (cauchy.Some? ==> IsCauchyStep(problem.n, problem.hessian(s), problem.rhs(s), alpha, cauchy.value))
    }

    method SelectStep(cauchy: Option<Vector>, ghost s: State, ghost alpha: real,
                      ghost damping: real) returns (linearGain: real)
      requires Valid() && Ready(s, cauchy, alpha, damping)
      modifies this`lastStep, this`hdl
      ensures Valid() && Ready(s, cauchy, alpha, damping)
      ensures StepOk(problem.n, cauchy, system.x, delta, lastStep, hdl)
      ensures lastStep != Undefined ==> linearGain >= 0.0 && SquaredNorm(problem.n, hdl) <= delta * delta
      ensures linearGain == Gain(problem.n, problem.hessian(s), problem.rhs(s), hdl)
    {
      hide StepOk, Gain, Solves, Damped, PositiveSemidefinite, SymmetricMatrix, IsCauchyStep, SquaredNorm, IsSqrt;
      hide SystemFor, SolvesOnSuccess;
      lastStep, hdl := ChooseStep(system.n, cauchy, system.x, delta, sqrt);
      linearGain := LinearGain(s);
      if lastStep != Undefined {
        StepGain(problem.n, problem.hessian(s), problem.rhs(s), alpha, damping, cauchy, system.x, delta, lastStep, hdl);
        StepWithinRegion(problem.n, cauchy, system.x, delta, lastStep, hdl);
      }
    }

    /** What a trial from s comes to. */
    ghost predicate IsTrial(s: State, cauchy: Option<Vector>, hgn: Vector, t: Trial)
      reads optimizer
    {
      && StepOk(problem.n, cauchy, hgn, t.delta, t.kind, t.step)
      && StepTaken(optimizer.activeVertices, optimizer.ivMap, s, t.step, t.state)
      && t.length >= 0.0 && t.length * t.length == SquaredNorm(problem.n, t.step)
      && (t.kind != Undefined ==> t.rho * Denominator(Gain(problem.n, problem.hessian(s), problem.rhs(s), t.step))
                                    == problem.chi2(s) - problem.chi2(t.state))
    }

    /** The step exists and lowers the cost. */
    ghost predicate Good(s: State, t: Trial) {
      t.kind != Undefined && problem.chi2(t.state) < problem.chi2(s)
    }

    lemma TrialMade(s: State, cauchy: Option<Vector>, hgn: Vector, t: Trial, linearGain: real)
      requires StepOk(problem.n, cauchy, hgn, t.delta, t.kind, t.step)
      requires StepTaken(optimizer.activeVertices, optimizer.ivMap, s, t.step, t.state)
      requires t.length >= 0.0 && t.length * t.length == SquaredNorm(problem.n, t.step)
      requires linearGain == Gain(problem.n, problem.hessian(s), problem.rhs(s), t.step)
      requires t.kind != Undefined ==> t.rho * Denominator(linearGain) == problem.chi2(s) - problem.chi2(t.state)
      ensures IsTrial(s, cauchy, hgn, t)
      ensures Good(s, t) <==> t.kind != Undefined && problem.chi2(t.state) < problem.chi2(s)
      ensures DeltaAfter(t) == if t.kind == Undefined then t.delta else NextDelta(t.delta, t.rho, t.length)
    {
      hide StepOk, StepTaken, Gain, Denominator, NextDelta;
    }

    /**
     One trial: the step is kept exactly when it lowers the cost. A step without a value (zero over
     zero) is undone and leaves the radius alone.
     */
    method TakeTrial(currentChi: real, cauchy: Option<Vector>, ghost s: State, ghost alpha: real, ghost damping: real)
      returns (goodStep: bool, ghost t: Trial)
      requires Valid() && s == State() && Ready(s, cauchy, alpha, damping) && currentChi == problem.chi2(s)
      modifies this`lastStep, this`hdl, this`delta
      modifies optimizer.activeVertices`estimate, optimizer.activeVertices`backup
      ensures Valid() && Ready(s, cauchy, alpha, damping) && Stacks() == old(Stacks())
      ensures IsTrial(s, cauchy, system.x, t) && t.delta == old(delta) && t.kind == lastStep && delta == DeltaAfter(t)
      ensures goodStep == Good(s, t) && State() == if goodStep then t.state else s
    {
      hide *;
      ghost var delta0 := delta;
      var linearGain := SelectStep(cauchy, s, alpha, damping);
      var newChi := Move(s);
      ghost var rho, length;
      goodStep, rho, length := Judge(currentChi, newChi, linearGain, cauchy, s, alpha, damping);
      t := Trial(delta0, lastStep, hdl, State(), rho, length);
      TrialMade(s, cauchy, system.x, t, linearGain);
      Conclude(goodStep, s, old(Stacks()));
    }

    method Move(ghost s: State) returns (newChi: real)
      requires Valid() && s == State()
      modifies optimizer.activeVertices`estimate, optimizer.activeVertices`backup
      ensures Saved(optimizer.activeVertices, s, old(Stacks())) && newChi == problem.chi2(State())
      ensures StepTaken(optimizer.activeVertices, optimizer.ivMap, s, hdl, State())
    {
      hide StepTaken, Saved;
      optimizer.Push();
      optimizer.Advance(hdl, s, old(Stacks()));
      newChi := problem.chi2(State());
    }

    method Conclude(goodStep: bool, ghost s: State, ghost stacks: seq<seq<Estimate>>)
      requires Valid() && Saved(optimizer.activeVertices, s, stacks)
      modifies optimizer.activeVertices`estimate, optimizer.activeVertices`backup
      ensures Stacks() == stacks && State() == if goodStep then old(State()) else s
    {
      if goodStep {
        optimizer.Keep(s, stacks);
      } else {
        optimizer.Undo(s, stacks);
      }
    }

    /** Compares the gains and adjusts the radius. */
    method Judge(currentChi: real, newChi: real, linearGain: real, cauchy: Option<Vector>, ghost s: State,
                 ghost alpha: real, ghost damping: real)
      returns (goodStep: bool, rho: real, length: real)
      requires Valid() && Ready(s, cauchy, alpha, damping) && (lastStep != Undefined ==> linearGain >= 0.0)
      modifies this`delta
      ensures Valid() && Ready(s, cauchy, alpha, damping)
      ensures length >= 0.0 && length * length == SquaredNorm(problem.n, hdl)
      ensures lastStep == Undefined ==> !goodStep && delta == old(delta)
      ensures lastStep != Undefined ==> delta == NextDelta(old(delta), rho, length)
      ensures lastStep != Undefined ==> rho * Denominator(linearGain) == currentChi - newChi
      ensures lastStep != Undefined ==> (goodStep <==> newChi < currentChi)
    {
      hide StepOk, Solves, Damped, PositiveSemidefinite, SymmetricMatrix, IsCauchyStep, SystemFor, SolvesOnSuccess;
      hide NextDelta, Denominator, SquaredNorm;
      length := sqrt(SquaredNorm(system.n, hdl));
      if lastStep == Undefined {
        return false, 0.0, length;
      }
      rho := Ratio(currentChi - newChi, linearGain);
      goodStep := rho > 0.0;
      delta := NextRadius(delta, rho, length);
    }

    /** The trials in a row. */
    ghost predicate AreTrials(s: State, cauchy: Option<Vector>, hgn: Vector, delta0: real, trials: seq<Trial>)
      reads optimizer
    {
      forall k: nat :: k < |trials| ==> IsTrial(s, cauchy, hgn, trials[k]) && InTurn(s, delta0, trials, k)
    }

    /** The radius goes from each trial to the next, and all but the last were undone. */
    ghost predicate InTurn(s: State, delta0: real, trials: seq<Trial>, k: nat)
      requires k < |trials|
    {
      && trials[k].delta == (if k == 0 then delta0 else DeltaAfter(trials[k - 1]))
      && (k < |trials| - 1 ==> !Good(s, trials[k]) && k + 1 < maxTrialsAfterFailure)
    }

    lemma FirstTrial(s: State, cauchy: Option<Vector>, hgn: Vector, delta0: real, t: Trial)
      requires IsTrial(s, cauchy, hgn, t) && t.delta == delta0
      ensures AreTrials(s, cauchy, hgn, delta0, [t])
    {
      hide IsTrial, Good;
    }

    lemma TurnStays(s: State, delta0: real, trials: seq<Trial>, t: Trial, k: nat)
      requires k < |trials| && InTurn(s, delta0, trials, k)
      requires !Good(s, trials[|trials| - 1]) && |trials| < maxTrialsAfterFailure
      ensures InTurn(s, delta0, trials + [t], k)
    {
      hide Good, DeltaAfter;
      assert (trials + [t])[k] == trials[k];
      if k > 0 {
        assert (trials + [t])[k - 1] == trials[k - 1];
      }
    }

    lemma OneMoreTrial(s: State, cauchy: Option<Vector>, hgn: Vector, delta0: real, trials: seq<Trial>, t: Trial)
      requires trials != [] && AreTrials(s, cauchy, hgn, delta0, trials) && IsTrial(s, cauchy, hgn, t)
      requires t.delta == DeltaAfter(trials[|trials| - 1])
      requires !Good(s, trials[|trials| - 1]) && |trials| < maxTrialsAfterFailure
      ensures AreTrials(s, cauchy, hgn, delta0, trials + [t])
    {
      hide IsTrial, InTurn;
      forall k: nat | k < |trials| ensures InTurn(s, delta0, trials + [t], k) {
        TurnStays(s, delta0, trials, t, k);
      }
      LastInTurn(s, delta0, trials, t);
    }

    lemma LastInTurn(s: State, delta0: real, trials: seq<Trial>, t: Trial)
      requires trials != [] && t.delta == DeltaAfter(trials[|trials| - 1])
      ensures InTurn(s, delta0, trials + [t], |trials|)
    {
      hide Good, DeltaAfter;
      assert (trials + [t])[|trials| - 1] == trials[|trials| - 1];
    }

    method Trials(currentChi: real, cauchy: Option<Vector>, ghost s: State, ghost alpha: real, ghost damping: real)
      returns (goodStep: bool, ghost trials: seq<Trial>)
      requires Valid() && s == State() && Ready(s, cauchy, alpha, damping) && currentChi == problem.chi2(s) && lastNumTries == 1
      modifies this`delta, this`lastStep, this`lastNumTries, this`hdl
      modifies optimizer.activeVertices`estimate, optimizer.activeVertices`backup
      ensures Valid() && Ready(s, cauchy, alpha, damping) && Stacks() == old(Stacks())
      ensures trials != [] && AreTrials(s, cauchy, system.x, old(delta), trials) && lastNumTries == |trials|
      ensures delta == DeltaAfter(trials[|trials| - 1]) && lastStep == trials[|trials| - 1].kind
      ensures goodStep == Good(s, trials[|trials| - 1]) && State() == if goodStep then trials[|trials| - 1].state else s
      ensures !goodStep ==> |trials| >= maxTrialsAfterFailure
    {
      hide *;
      ghost var delta0 := delta;
      ghost var t;
      goodStep, t := TakeTrial(currentChi, cauchy, s, alpha, damping);
      trials := [t];
      FirstTrial(s, cauchy, system.x, delta0, t);
      while !goodStep && lastNumTries < maxTrialsAfterFailure
        invariant Valid() && Ready(s, cauchy, alpha, damping) && Stacks() == old(Stacks())
        invariant trials != [] && AreTrials(s, cauchy, system.x, delta0, trials) && lastNumTries == |trials|
        invariant delta == DeltaAfter(trials[|trials| - 1]) && lastStep == trials[|trials| - 1].kind
        invariant goodStep == Good(s, trials[|trials| - 1]) && State() == if goodStep then trials[|trials| - 1].state else s
        decreases maxTrialsAfterFailure - lastNumTries, !goodStep
      {
        lastNumTries := lastNumTries + 1;
        goodStep, t := TakeTrial(currentChi, cauchy, s, alpha, damping);
        OneMoreTrial(s, cauchy, system.x, delta0, trials, t);
        trials := trials + [t];
      }
    }

    method Prepare(iteration: nat)
      requires Valid() && (iteration == 0 || (delta > 0.0 && currentLambda > 0.0))
      modifies this`delta, this`currentLambda, this`wasPDInAllIterations, system`off, system`b, system.diagonal
      ensures Valid() && SystemFor(system, problem, State()) && delta > 0.0 && currentLambda > 0.0
      ensures State() == old(State()) && Stacks() == old(Stacks())
      ensures delta == if iteration == 0 then userDeltaInit else old(delta)
      ensures currentLambda == if iteration == 0 then initialLambda else old(currentLambda)
      ensures wasPDInAllIterations == (iteration == 0 || old(wasPDInAllIterations))
    {
      if iteration == 0 {
        delta := userDeltaInit;
        currentLambda := initialLambda;
        wasPDInAllIterations := true;
      }
      system.BuildSystem(problem.hessian(State()), problem.rhs(State()));
    }

    lemma ReadyHolds(s: State, cauchy: Option<Vector>, alpha: real, damping: real)
      requires Ready(s, cauchy, alpha, damping)
      ensures SystemFor(system, problem, s) && delta > 0.0
    {
    }

    /** What the last attempt and the trials come to: Fail without trials, or the state and radius of the last trial. */
    ghost predicate EndsIn(s: State, cauchy: Option<Vector>, delta0: real, attempts: seq<Attempt>, trials: seq<Trial>,
                           after: State, delta': real, result: SolverResult)
      requires attempts != []
      reads optimizer
    {
      if attempts[|attempts| - 1].ok then
        && trials != [] && AreTrials(s, cauchy, attempts[|attempts| - 1].x, delta0, trials)
        && Concluded(s, trials[|trials| - 1], |trials|, after, delta', result)
      else trials == [] && after == s && delta' == delta0 && result == Fail
    }

    ghost predicate Concluded(s: State, last: Trial, tries: nat, after: State, delta': real, result: SolverResult) {
      && delta' == DeltaAfter(last) && after == (if Good(s, last) then last.state else s)
      && (!Good(s, last) ==> tries >= maxTrialsAfterFailure)
      && result == if tries == maxTrialsAfterFailure || !Good(s, last) then Terminate else OK
    }

    lemma EndsInTrials(s: State, cauchy: Option<Vector>, delta0: real, attempts: seq<Attempt>, trials: seq<Trial>,
                       after: State, delta': real, result: SolverResult)
      requires attempts != [] && attempts[|attempts| - 1].ok && trials != []
      requires AreTrials(s, cauchy, attempts[|attempts| - 1].x, delta0, trials)
      requires delta' == DeltaAfter(trials[|trials| - 1])
      requires after == if Good(s, trials[|trials| - 1]) then trials[|trials| - 1].state else s
      requires !Good(s, trials[|trials| - 1]) ==> |trials| >= maxTrialsAfterFailure
      requires result == if |trials| == maxTrialsAfterFailure || !Good(s, trials[|trials| - 1]) then Terminate else OK
      ensures EndsIn(s, cauchy, delta0, attempts, trials, after, delta', result)
    {
      hide AreTrials, DeltaAfter, Good;
    }

    lemma EndsInFailure(s: State, cauchy: Option<Vector>, delta0: real, attempts: seq<Attempt>)
      requires attempts != [] && !attempts[|attempts| - 1].ok
      ensures EndsIn(s, cauchy, delta0, attempts, [], s, delta0, Fail)
    {
    }

    /** What one iteration did. */
    ghost predicate IterationOk(it: Iteration)
      reads optimizer
    {
      && IsCauchy(it.before, it.cauchy, it.alpha)
      && it.attempts != [] && AreAttempts(it.before, it.damp, it.wasPD, it.attempts)
      && DampingAfter(it.damp, it.wasPD, it.attempts, it.damp', it.wasPD')
      && EndsIn(it.before, it.cauchy, it.delta, it.attempts, it.trials, it.after, it.delta', it.result)
    }

    /** The step to the minimum along b; there is none exactly if b^T H b is zero. */
    ghost predicate IsCauchy(s: State, cauchy: Option<Vector>, alpha: real) {
      && (cauchy.Some? ==> IsCauchyStep(problem.n, problem.hessian(s), problem.rhs(s), alpha, cauchy.value))
      && (cauchy == None <==> Form(problem.n, problem.hessian(s), problem.rhs(s), problem.rhs(s)) == 0.0)
    }

    lemma IsReadyFor(s: State, cauchy: Option<Vector>, alpha: real, damping: real)
      requires SystemFor(system, problem, s) && delta > 0.0 && damping >= 0.0 && IsCauchy(s, cauchy, alpha)
      requires Solves(problem.n, Damped(problem.hessian(s), damping), system.x, problem.rhs(s))
      ensures Ready(s, cauchy, alpha, damping)
    {
    }

    /** Solves for the Gauss-Newton step and tries steps, unless the solver fails. */
    method SolveAndTry(currentChi: real, cauchy: Option<Vector>, ghost s: State, ghost alpha: real)
      returns (result: SolverResult, ghost attempts: seq<Attempt>, ghost trials: seq<Trial>)
      requires Valid() && s == State() && SystemFor(system, problem, s) && delta > 0.0 && currentLambda > 0.0
      requires IsCauchy(s, cauchy, alpha) && currentChi == problem.chi2(s) && lastNumTries == 1
      modifies this`delta, this`currentLambda, this`wasPDInAllIterations, this`lastStep, this`lastNumTries, this`hdl
      modifies system`x, system.diagonal, system.diagonalBackup
      modifies optimizer.activeVertices`estimate, optimizer.activeVertices`backup
      ensures Valid() && delta > 0.0 && currentLambda > 0.0 && Stacks() == old(Stacks()) && SystemFor(system, problem, s)
      ensures attempts != [] && AreAttempts(s, old(currentLambda), old(wasPDInAllIterations), attempts)
      ensures DampingAfter(old(currentLambda), old(wasPDInAllIterations), attempts, currentLambda, wasPDInAllIterations)
      ensures EndsIn(s, cauchy, old(delta), attempts, trials, State(), delta, result)
      ensures trials != [] ==> lastNumTries == |trials| && lastStep == trials[|trials| - 1].kind
    {
      hide *;
      trials := [];
      var solved;
      solved, attempts := SolveGaussNewton(s);
      if !solved {
        EndsInFailure(s, cauchy, delta, attempts);
        return Fail, attempts, [];
      }
      IsReadyFor(s, cauchy, alpha, attempts[|attempts| - 1].damping);
      var goodStep;
      goodStep, trials := Trials(currentChi, cauchy, s, alpha, attempts[|attempts| - 1].damping);
      ReadyHolds(s, cauchy, alpha, attempts[|attempts| - 1].damping);
      result := if lastNumTries == maxTrialsAfterFailure || !goodStep then Terminate else OK;
      EndsInTrials(s, cauchy, old(delta), attempts, trials, State(), delta, result);
    }

    /**
     One iteration: unless the solver fails, steps are tried in a trust region until one lowers the cost; it says
     what the linear solver was asked and what each of the trials was.
     */
    method Solve(iteration: nat) returns (result: SolverResult, ghost it: Iteration)
      requires Valid() && (iteration == 0 || (delta > 0.0 && currentLambda > 0.0))
      modifies this`delta, this`currentLambda, this`wasPDInAllIterations, this`lastStep, this`lastNumTries, this`hdl
      modifies system`off, system`b, system`x, system.diagonal, system.diagonalBackup
      modifies optimizer.activeVertices`estimate, optimizer.activeVertices`backup
      ensures Valid() && delta > 0.0 && currentLambda > 0.0
      ensures Stacks() == old(Stacks()) && SystemFor(system, problem, old(State()))
      ensures IterationOk(it) && it.result == result && it.before == old(State()) && it.after == State()
      ensures it.delta' == delta && it.damp' == currentLambda && it.wasPD' == wasPDInAllIterations
      ensures if iteration == 0 then it.delta == userDeltaInit && it.damp == initialLambda && it.wasPD
              else it.delta == old(delta) && it.damp == old(currentLambda) && it.wasPD == old(wasPDInAllIterations)
      ensures it.trials != [] ==> lastNumTries == |it.trials| && lastStep == it.trials[|it.trials| - 1].kind
    {
      hide *;
      ghost var s := State();
      var currentChi := problem.chi2(State());
      Prepare(iteration);
      ghost var delta0, damp, wasPD := delta, currentLambda, wasPDInAllIterations;
      var cauchy;
      ghost var alpha, attempts, trials;
      cauchy, alpha := CauchyStep(s);
      lastNumTries := 1;
      result, attempts, trials := SolveAndTry(currentChi, cauchy, s, alpha);
      it := Iteration(s, delta0, damp, wasPD, cauchy, alpha, attempts, trials, State(), delta, currentLambda, wasPDInAllIterations,
                      result);
      Iterated(it);
    }

    lemma Iterated(it: Iteration)
      requires IsCauchy(it.before, it.cauchy, it.alpha)
      requires it.attempts != [] && AreAttempts(it.before, it.damp, it.wasPD, it.attempts)
      requires DampingAfter(it.damp, it.wasPD, it.attempts, it.damp', it.wasPD')
      requires EndsIn(it.before, it.cauchy, it.delta, it.attempts, it.trials, it.after, it.delta', it.result)
      ensures IterationOk(it)
    {
      hide IsCauchy, AreAttempts, DampingAfter, EndsIn;
    }

    /** The cost never increases; it drops exactly if the last trial was good. */
    lemma IterationLowers(it: Iteration)
      requires IterationOk(it)
      ensures problem.chi2(it.after) < problem.chi2(it.before) || it.after == it.before
    {
      hide IsCauchy, AreAttempts, DampingAfter, AreTrials;
    }

    /** What the attempts call a success solves the damped system. */
    lemma AttemptSolves(s: State, a: Attempt)
      requires Valid() && IsAttempt(s, a) && a.ok
      ensures Solves(problem.n, Damped(problem.hessian(s), a.damping), a.x, problem.rhs(s))
    {
      hide Solves, PositiveSemidefinite, Damped;
      DampedIsSymmetric(problem.n, problem.hessian(s), a.damping, a.asked);
      SolvesCong(problem.n, a.asked, Damped(problem.hessian(s), a.damping), a.x, problem.rhs(s));
    }

    lemma {:induction false} RaisedIsPositive(damp: real, k: nat)
      requires damp > 0.0 && lambdaFactor > 1.0
      ensures Raised(damp, lambdaFactor, k) > 0.0
    {
      if k > 0 {
        RaisedIsPositive(damp, k - 1);
        MulPositive(Raised(damp, lambdaFactor, k - 1), lambdaFactor);
      }
    }

    lemma TrialParts(it: Iteration, k: nat)
      requires IterationOk(it) && k < |it.trials|
      ensures it.attempts != [] && it.attempts[|it.attempts| - 1].ok && AreAttempts(it.before, it.damp, it.wasPD, it.attempts)
      ensures IsTrial(it.before, it.cauchy, it.attempts[|it.attempts| - 1].x, it.trials[k])
      ensures InTurn(it.before, it.delta, it.trials, k) && IsCauchy(it.before, it.cauchy, it.alpha)
    {
      hide IsCauchy, AreAttempts, DampingAfter, Concluded, IsTrial, InTurn;
    }

    lemma LastAttempt(s: State, damp: real, wasPD: bool, attempts: seq<Attempt>)
      requires Valid() && AreAttempts(s, damp, wasPD, attempts) && attempts != [] && attempts[|attempts| - 1].ok && damp > 0.0
      ensures attempts[|attempts| - 1].damping >= 0.0
      ensures Solves(problem.n, Damped(problem.hessian(s), attempts[|attempts| - 1].damping), attempts[|attempts| - 1].x, problem.rhs(s))
    {
      hide IsAttempt, Solves, Damped, Raised, Fits;
      AttemptSolves(s, attempts[|attempts| - 1]);
      RaisedIsPositive(damp, |attempts| - 1);
    }

    lemma GainOfTrial(s: State, cauchy: Option<Vector>, alpha: real, a: Attempt, t: Trial)
      requires Valid() && IsCauchy(s, cauchy, alpha) && IsTrial(s, cauchy, a.x, t) && t.kind != Undefined && a.damping >= 0.0
      requires Solves(problem.n, Damped(problem.hessian(s), a.damping), a.x, problem.rhs(s))
      ensures Gain(problem.n, problem.hessian(s), problem.rhs(s), t.step) >= 0.0
    {
      hide Solves, Damped, StepOk, StepTaken, Gain, PositiveSemidefinite, IsCauchyStep, SymmetricMatrix;
      StepGain(problem.n, problem.hessian(s), problem.rhs(s), alpha, a.damping, cauchy, a.x, t.delta, t.kind, t.step);
    }

    /** Every trial whose step exists has a non-negative predicted gain. */
    lemma TrialGain(it: Iteration, k: nat)
      requires Valid() && IterationOk(it) && it.damp > 0.0 && k < |it.trials| && it.trials[k].kind != Undefined
      ensures Gain(problem.n, problem.hessian(it.before), problem.rhs(it.before), it.trials[k].step) >= 0.0
    {
      hide *;
      TrialParts(it, k);
      LastAttempt(it.before, it.damp, it.wasPD, it.attempts);
      GainOfTrial(it.before, it.cauchy, it.alpha, it.attempts[|it.attempts| - 1], it.trials[k]);
    }

    /** A rejected trial halves its radius. */
    lemma RejectionHalves(it: Iteration, k: nat)
      requires Valid() && IterationOk(it) && it.damp > 0.0 && k < |it.trials|
      requires it.trials[k].kind != Undefined && !Good(it.before, it.trials[k])
      ensures DeltaAfter(it.trials[k]) == 0.5 * it.trials[k].delta
    {
      hide IterationOk, Valid, StepOk, StepTaken, Gain, Denominator, InTurn, IsCauchy, AreAttempts, NextDelta;
      var t := it.trials[k];
      TrialParts(it, k);
      TrialGain(it, k);
      RejectedRatio(t.rho, Gain(problem.n, problem.hessian(it.before), problem.rhs(it.before), t.step),
                    problem.chi2(it.before) - problem.chi2(t.state));
    }

    /** After an iteration whose steps all existed and were all rejected, the radius has been halved once per trial. */
    lemma RejectionsHalve(it: Iteration)
      requires Valid() && IterationOk(it) && it.damp > 0.0 && it.trials != []
      requires forall k :: 0 <= k < |it.trials| ==> it.trials[k].kind != Undefined && !Good(it.before, it.trials[k])
      ensures it.delta' == Halved(it.delta, |it.trials|) && it.after == it.before
    {
      hide IsCauchy, AreAttempts, DampingAfter, AreTrials, DeltaAfter, Halved;
      HalvedSoFar(it, |it.trials| - 1);
    }

    lemma {:induction false} HalvedSoFar(it: Iteration, k: nat)
      requires Valid() && IterationOk(it) && it.damp > 0.0 && k < |it.trials|
      requires forall k :: 0 <= k < |it.trials| ==> it.trials[k].kind != Undefined && !Good(it.before, it.trials[k])
      ensures DeltaAfter(it.trials[k]) == Halved(it.delta, k + 1)
    {
      hide IterationOk, Valid, IsTrial, IsCauchy, AreAttempts, DeltaAfter, Good;
      TrialParts(it, k);
      RejectionHalves(it, k);
      if k > 0 {
        HalvedSoFar(it, k - 1);
      }
    }
  }

  lemma RejectedRatio(rho: real, linearGain: real, nonLinearGain: real)
    requires linearGain >= 0.0 && nonLinearGain <= 0.0 && rho * Denominator(linearGain) == nonLinearGain
    ensures rho <= 0.0
  {
    if rho > 0.0 {
      MulPositive(rho, Denominator(linearGain));
    }
  }

  lemma DampedIsSymmetric(n: nat, H: Matrix, damp: real, A: Matrix)
    requires SymmetricMatrix(n, H) && forall i, j :: 0 <= i < n && 0 <= j < n ==> A(i, j) == Damped(H, damp)(i, j)
    ensures SymmetricMatrix(n, A)
  {
    forall i, j | 0 <= i < n && 0 <= j < n ensures A(i, j) == A(j, i) {
      assert Damped(H, damp)(i, j) == Damped(H, damp)(j, i);
    }
  }
}
