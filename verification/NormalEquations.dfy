/** The linear system of one iteration, its damping, and the restoration of its diagonal. */
module NormalEquations {
  import opened Sums
  import opened LinearAlgebra
  import opened QuadraticModel
  import opened DampedNewton
  import opened GraphOptimizer

  type State = seq<Estimate>

  datatype SolverResult = Terminate | OK | Fail

  ghost function Pow2(k: nat): (r: real)
    ensures r > 0.0
  {
    if k == 0 then 1.0 else 2.0 * Pow2(k - 1)
  }

  /** The cost, and the normal equations that the edges contribute, as functions of all estimates. */
  datatype Problem = Problem(n: nat, chi2: State -> real, hessian: State -> Matrix, rhs: State -> Vector)

  ghost predicate IsLeastSquares(problem: Problem) {
    forall s: State ::
      SymmetricMatrix(problem.n, problem.hessian(s)) && PositiveSemidefinite(problem.n, problem.hessian(s))
  }

  /** A linear solver reports success only for a solution; on failure it may leave anything behind. */
  type LinearSolver = (nat, Matrix, Vector) -> (bool, Vector)

  ghost predicate SolvesOnSuccess(solver: LinearSolver) {
    forall n, A, b :: SymmetricMatrix(n, A) && solver(n, A, b).0 ==> Solves(n, A, solver(n, A, b).1, b)
  }

  /** The matrix whose diagonal is kept apart from its other entries. */
  function WithDiagonal(off: Matrix, d: seq<real>): Matrix {
    (i, j) => if i == j && 0 <= i < |d| then d[i] else off(i, j)
  }

  ghost function Shifted(d: seq<real>, shift: real): (r: seq<real>)
    ensures |r| == |d| && forall k :: 0 <= k < |d| ==> r[k] == d[k] + shift
  {
    if d == [] then [] else Shifted(d[..|d| - 1], shift) + [d[|d| - 1] + shift]
  }

  lemma ShiftedIsDamped(off: Matrix, d: seq<real>, damp: real, i: int, j: int)
    requires 0 <= i < |d| && 0 <= j < |d|
    ensures WithDiagonal(off, Shifted(d, damp))(i, j) == Damped(WithDiagonal(off, d), damp)(i, j)
  {
    if i == j {
      assert Delta(i, j) == 1.0;
    } else {
      assert damp * Delta(i, j) == 0.0;
    }
  }

  class BlockSystem {
    /** Where the diagonal blocks end; the first numPoses blocks belong to poses. */
    const blockEnds: seq<nat>
    const numPoses: nat
    const n: nat
    const solver: LinearSolver

    var off: Matrix
    var diagonal: array<real>
    var diagonalBackup: array<real>
    var b: Vector
    var x: Vector

    constructor (n: nat, blockEnds: seq<nat>, numPoses: nat, solver: LinearSolver)
      requires numPoses <= |blockEnds| && n == if |blockEnds| == 0 then 0 else blockEnds[|blockEnds| - 1]
      requires forall i :: 0 < i < |blockEnds| ==> blockEnds[i - 1] <= blockEnds[i]
      ensures Valid() && this.n == n && this.solver == solver
    {
      this.n, this.blockEnds, this.numPoses, this.solver := n, blockEnds, numPoses, solver;
      off, b, x := (i, j) => 0.0, i => 0.0, i => 0.0;
      diagonal, diagonalBackup := new real[n], new real[n];
    }

    ghost predicate Valid()
      reads this
    {
      && diagonal.Length == diagonalBackup.Length == n && diagonal != diagonalBackup
      && numPoses <= |blockEnds| && n == Base(|blockEnds|)
      && forall i :: 0 <= i < |blockEnds| ==> Base(i) <= blockEnds[i]
    }

    function Base(i: nat): nat
      requires i <= |blockEnds|
    {
      if i == 0 then 0 else blockEnds[i - 1]
    }

    lemma {:induction false} EndsGrow(i: nat)
      requires Valid() && i <= |blockEnds|
      ensures Base(i) <= n
      decreases |blockEnds| - i
    {
      if i < |blockEnds| {
        EndsGrow(i + 1);
      }
    }

    function Dense(): Matrix
      reads this, diagonal
    {
      WithDiagonal(off, diagonal[..])
    }

    /** Replaces the system by the one for the present estimates. */
    method BuildSystem(H: Matrix, rhs: Vector)
      requires Valid()
      modifies this`off, this`b, diagonal
      ensures b == rhs && off == H
      ensures forall i :: 0 <= i < n ==> diagonal[i] == H(i, i)
    {
      for i := 0 to n
        invariant forall k :: 0 <= k < i ==> diagonal[k] == H(k, k)
      {
        diagonal[i] := H(i, i);
      }
      off, b := H, rhs;
    }

    /** Adds lambda to the diagonals of all blocks, poses first, saving them when asked to. */
    method SetLambda(damp: real, backup: bool)
      requires Valid()
      modifies diagonal, diagonalBackup
      ensures diagonal[..] == Shifted(old(diagonal[..]), damp)
      ensures diagonalBackup[..] == if backup then old(diagonal[..]) else old(diagonalBackup[..])
    {
      ghost var before, saved := diagonal[..], diagonalBackup[..];
      for i := 0 to numPoses
        invariant ShiftedUpTo(before, saved, damp, backup, Base(i))
      {
        ShiftBlock(before, saved, damp, backup, i);
      }
      for i := numPoses to |blockEnds|
        invariant ShiftedUpTo(before, saved, damp, backup, Base(i))
      {
        ShiftBlock(before, saved, damp, backup, i);
      }
      AllShifted(before, saved, damp, backup);
    }

    lemma AllShifted(before: seq<real>, saved: seq<real>, damp: real, backup: bool)
      requires Valid() && |before| == |saved| == n && ShiftedUpTo(before, saved, damp, backup, n)
      ensures diagonal[..] == Shifted(before, damp)
      ensures diagonalBackup[..] == if backup then before else saved
    {
    }

    ghost predicate ShiftedUpTo(before: seq<real>, saved: seq<real>, damp: real, backup: bool, m: nat)
      requires diagonal.Length == diagonalBackup.Length == |before| == |saved|
      reads this, diagonal, diagonalBackup
    {
      && (forall k :: 0 <= k < |before| ==> diagonal[k] == before[k] + if k < m then damp else 0.0)
      && (forall k :: 0 <= k < |before| ==> diagonalBackup[k] == if backup && k < m then before[k] else saved[k])
    }

    method ShiftBlock(ghost before: seq<real>, ghost saved: seq<real>, damp: real, backup: bool, i: nat)
      requires Valid() && i < |blockEnds| && |before| == |saved| == n
      requires ShiftedUpTo(before, saved, damp, backup, Base(i))
      modifies diagonal, diagonalBackup
      ensures ShiftedUpTo(before, saved, damp, backup, Base(i + 1))
    {
      EndsGrow(i + 1);
      for k := Base(i) to blockEnds[i]
        invariant ShiftedUpTo(before, saved, damp, backup, k)
      {
        if backup {
          diagonalBackup[k] := diagonal[k];
        }
        diagonal[k] := diagonal[k] + damp;
      }
    }

    /** Puts the saved diagonals back. */
    method RestoreDiagonal()
      requires Valid()
      modifies diagonal
      ensures diagonal[..] == diagonalBackup[..]
    {
      for i := 0 to numPoses
        invariant forall k :: 0 <= k < Base(i) <= n ==> diagonal[k] == diagonalBackup[k]
      {
        RestoreBlock(i);
      }
      for i := numPoses to |blockEnds|
        invariant forall k :: 0 <= k < Base(i) <= n ==> diagonal[k] == diagonalBackup[k]
      {
        RestoreBlock(i);
      }
    }

    method RestoreBlock(i: nat)
      requires Valid() && i < |blockEnds|
      requires forall k :: 0 <= k < Base(i) <= n ==> diagonal[k] == diagonalBackup[k]
      modifies diagonal
      ensures forall k :: 0 <= k < Base(i + 1) <= n ==> diagonal[k] == diagonalBackup[k]
    {
      EndsGrow(i);
      EndsGrow(i + 1);
      for k := Base(i) to blockEnds[i]
        invariant forall l :: 0 <= l < k ==> diagonal[l] == diagonalBackup[l]
      {
        diagonal[k] := diagonalBackup[k];
      }
    }

    /** Runs the linear solver; the solution vector is overwritten even when it fails. */
    method Solve() returns (ok: bool)
      modifies this`x
      ensures (ok, x) == solver(n, Dense(), b)
    {
      var (solved, solution) := solver(n, Dense(), b);
      x := solution;
      return solved;
    }
  }

  /** The system holds the undamped normal equations for the state s. */
  ghost predicate SystemFor(system: BlockSystem, problem: Problem, s: State)
    reads system, system.diagonal
  {
    && system.off == problem.hessian(s) && system.b == problem.rhs(s)
    && forall i :: 0 <= i < system.diagonal.Length ==> system.diagonal[i] == problem.hessian(s)(i, i)
  }

  ghost predicate Fits(system: BlockSystem, problem: Problem)
    reads system
  {
    system.Valid() && IsLeastSquares(problem) && system.n == problem.n && SolvesOnSuccess(system.solver)
  }

  /** A is the matrix for the state s with damp added to its diagonal. */
  ghost predicate IsDampedSystem(problem: Problem, s: State, damp: real, A: Matrix) {
    forall i, j :: 0 <= i < problem.n && 0 <= j < problem.n ==> A(i, j) == Damped(problem.hessian(s), damp)(i, j)
  }

  /**
   Solves with lambda on the diagonal and takes it off again: the matrix is as before. A is what the linear
   solver was given; verdict and solution are its own.
   */
  method SolveDamped(system: BlockSystem, problem: Problem, damp: real, ghost s: State) returns (ok: bool, ghost A: Matrix)
    requires Fits(system, problem) && SystemFor(system, problem, s)
    modifies system`x, system.diagonal, system.diagonalBackup
    ensures Fits(system, problem) && SystemFor(system, problem, s)
    ensures ok ==> Solves(problem.n, Damped(problem.hessian(s), damp), system.x, problem.rhs(s))
    ensures IsDampedSystem(problem, s, damp, A) && (ok, system.x) == system.solver(problem.n, A, problem.rhs(s))
  {
    ghost var H, before := problem.hessian(s), system.diagonal[..];
    system.SetLambda(damp, true);
    A := system.Dense();
    ok := system.Solve();
    DampedDense(system.n, H, system.off, before, system.diagonal[..], damp);
    if ok {
      SolvesCong(system.n, system.Dense(), Damped(H, damp), system.x, system.b);
    }
    system.RestoreDiagonal();
    assert system.diagonal[..] == before;
  }

  /** Solves the system as it is. */
  method SolveUndamped(system: BlockSystem, problem: Problem, ghost s: State) returns (ok: bool, ghost A: Matrix)
    requires Fits(system, problem) && SystemFor(system, problem, s)
    modifies system`x
    ensures Fits(system, problem) && SystemFor(system, problem, s)
    ensures ok ==> Solves(problem.n, Damped(problem.hessian(s), 0.0), system.x, problem.rhs(s))
    ensures IsDampedSystem(problem, s, 0.0, A) && (ok, system.x) == system.solver(problem.n, A, problem.rhs(s))
  {
    A := system.Dense();
    ok := system.Solve();
    ghost var H := problem.hessian(s);
    assert SymmetricMatrix(system.n, system.Dense());
    if ok {
      SolvesCong(system.n, system.Dense(), Damped(H, 0.0), system.x, system.b);
    }
  }

  /** Multiplying the stored system multiplies the matrix it was built from. */
  lemma DenseProduct(system: BlockSystem, problem: Problem, s: State, x: Vector)
    requires Fits(system, problem) && SystemFor(system, problem, s)
    ensures Dot(problem.n, MatVec(problem.n, system.Dense(), x), x) == Dot(problem.n, MatVec(problem.n, problem.hessian(s), x), x)
  {
    var n, A, H := problem.n, system.Dense(), problem.hessian(s);
    forall i | 0 <= i < n ensures MatVec(n, A, x)(i) == MatVec(n, H, x)(i) {
      SumCong(0, n, Terms(A, i, x), Terms(H, i, x));
    }
    DotCong(n, MatVec(n, A, x), MatVec(n, H, x), x, x);
  }

  /** The stored system with lambda on its diagonal is the damped matrix. */
  lemma DampedDense(n: nat, H: Matrix, off: Matrix, before: seq<real>, diagonal: seq<real>, damp: real)
    requires |before| == n && off == H && diagonal == Shifted(before, damp) && SymmetricMatrix(n, H)
    requires forall i :: 0 <= i < n ==> before[i] == H(i, i)
    ensures forall i, j :: 0 <= i < n && 0 <= j < n ==> WithDiagonal(off, diagonal)(i, j) == Damped(H, damp)(i, j)
    ensures SymmetricMatrix(n, WithDiagonal(off, diagonal))
  {
    forall i, j | 0 <= i < n && 0 <= j < n ensures WithDiagonal(off, diagonal)(i, j) == Damped(H, damp)(i, j) {
      ShiftedIsDamped(off, before, damp, i, j);
      assert WithDiagonal(off, before)(i, j) == H(i, j);
    }
  }

  lemma SolvesCong(n: nat, A: Matrix, A': Matrix, x: Vector, b: Vector)
    requires Solves(n, A, x, b)
    requires forall i, j :: 0 <= i < n && 0 <= j < n ==> A(i, j) == A'(i, j)
    ensures Solves(n, A', x, b)
  {
    forall i | 0 <= i < n ensures MatVec(n, A', x)(i) == b(i) {
      SumCong(0, n, Terms(A, i, x), Terms(A', i, x));
    }
  }
}
