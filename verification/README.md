# Verified model of the g2o engine

g2o minimises the sum of squared errors of a hyper-graph: vertices carry the unknown estimates, edges carry
measurements with an error, an information matrix and a Jacobian per vertex. This project models the
numerical and the graph engine and proves what it promises, for graphs, blocks and matrices of any size.
`double` is idealised as `real`, Eigen blocks as real matrices, and the largest `double`, which the graph
searches use for "not reached", as a value of its own (`Far`).

Code that updates state is modelled by classes and methods with loops; each is proved against functions on
values, and the properties are then proved of those functions.

- **Normal equations and the Schur solve.** `BlockLayout`, `SparseBlocks`, `SparseBlockAlgebra`,
  `CompressedViews`, `ViewProducts` and `DiagonalBlocks` give every block structure the dense matrix it
  denotes. `PairIndex`, `QuadraticForms`, `SystemStore`, `SystemAssembly` and `LeastSquares` sum the edges
  into blocks. `BlockStructure` allocates the blocks and the pattern of the Schur matrix.
  `SchurComplement`, `SchurElimination` and `BlockSolver` eliminate the landmarks; `SchurDefinite` shows why the
  reduced system can be factorised. `Damping` adds lambda to
  the diagonal blocks and takes it off again. `GaussNewton` puts these together: from the index mapping and
  the edges to an exact solution of the normal equations, to the moved vertices, and to a whole run.
- **Block operations.** `BlockProducts`, `BlockVectorProduct`, `SymmetricProduct`, `BlockPermutation`,
  `CompressedColumns`.
- **Marginal covariances.** `TriangularInverse`, `MarginalCovariance`, `SparseCovariance`.
- **Damping and trust region.** `QuadraticModel`, `DampedNewton`, `DoglegStep`, `GraphOptimizer`,
  `NormalEquations`, `Levenberg`, `Dogleg`.
- **Graph searches and bookkeeping.** `GraphTypes`, `HyperDijkstra`, `ShortestPathTree`,
  `EstimatePropagator`, `HyperGraph`.
- **Automatic differentiation.** `Calculus`, `Jets`, `AutoDiff`.
- **Sigma points.** `Unscented`.
- `Sums`, `Reals`, `LinearAlgebra` and `Options` are what the others build on.

Long proofs start with `hide`, which keeps the bodies of functions they do not need away from the verifier.

## Where the code and what is written about it disagree

The model follows the code.

- `SparseBlockMatrix::block(r, c, alloc)` is documented to create a missing block if `alloc` is true. A
  matrix that owns its blocks creates it in either case (sparse_block_matrix.hpp:70-92).
- `SparseBlockMatrix::multiply` is documented as `dest = (*this) * M`, but adds the product to a `dest` that
  exists already. `transpose` leaves blocks of `dest` alone that have no counterpart, so `dest` is the
  transpose exactly if those are zero (`SparseBlockAlgebra.IsTransposeIff`).
- `symmPermutation` is documented by `new_block[i] = old_block[pinv[i]]`; the code moves block `i` to
  `pinv[i]`.
- `changeId` returns true even if the new id is taken, and then the vertex has left the graph: the graph is
  as documented exactly if the new id is the old one or unused.
- `mergeVertices` leaves the merged vertex twice in an edge exactly if the two vertices shared an edge.
  Removing an edge runs into the assertion in `removeEdge` exactly if the edge has a vertex twice
  (`HyperGraph.HyperGraph.Disconnect`).
- `setEdgeVertex` keeps the links exactly if the vertex it replaces is not at another position of the edge.
- `EstimatePropagator::reset` empties the child of each visited entry, so it restores the initial map exactly
  if nothing has been visited, and a second propagation dereferences a null pointer as soon as it reaches a
  vertex that the first one visited. From the same start it always does (`EstimatePropagator.PropagateTwice`).
  Whatever the cost function, a run survives if no edges lead on from its starts to such a vertex; with a cost
  that lets every edge be taken it survives exactly then, so no weaker condition is safe for every cost.
- The dogleg code asserts `0 < beta < 1`. In exact arithmetic `beta` lies in [0, 1]; it is 1 exactly if the
  Gauss-Newton step ends on the boundary, and 0 exactly if the steepest-descent step ends there and the
  boundary is left at once (`DoglegStep.BetaRange`).
- When the Cauchy step does not exist (b^T H b = 0, in particular b = 0) or both candidates coincide on the
  boundary, the dogleg step is 0/0; the model calls it `Undefined` and shows that it is never accepted.
- Levenberg returns OK after a rejected trial if the maximal number of trials is below 1
  (`Levenberg.OkAfterRejection`).

## Model

| member | source | states |
|---|---|---|
| `GaussNewton.Solve` | g2o/g2o/core/optimization_algorithm_gauss_newton.cpp:48-93 | One iteration, from building the structure (first time) to the update: the blocks are those of the edges linearised at the estimates before; the linear solver is asked their reduced system, and the result is OK exactly if it succeeds on that; if it does and every landmark block could be inverted, the increment solves the normal equations H x = b there, with H the sum of J^T Omega J and b minus the sum of J^T Omega e over the free vertices; in any case the poses' part of the increment is the linear solver's answer, each vertex is moved by its own slice, and the structure stays usable |
| `GaussNewton.Increment` | g2o/g2o/core/optimization_algorithm_gauss_newton.cpp:63-79 | The same for the linear part alone, with the layouts that the index mapping gives |
| `GaussNewton.Optimize` | g2o/g2o/core/sparse_optimizer.cpp:393-455 | A whole run from unnumbered vertices: every iteration starts where the one before ended and is right for the edges linearised there, all but the last succeeded, a failure ends the run, and the result is -1, 0 or the number of iterations accordingly; with a linear solver that never fails it is the number of iterations asked for |
| `GaussNewton.IncrementSucceeds` | g2o/g2o/core/optimization_algorithm_gauss_newton.cpp:63-79 | Where the Hessian is positive definite and the landmark blocks are inverted, a linear solver that can factorise symmetric positive definite matrices makes the iteration succeed with the exact increment |
| `GaussNewton.Initialize` | g2o/g2o/core/block_solver.hpp:111-141 | Numbering the vertices and counting their columns gives exactly the layouts of the empty block system: poses first, landmarks behind them |
| `GaussNewton.TwoIterations` | g2o/g2o/core/sparse_optimizer.cpp:393-455 | A graph of one pose, one landmark and one edge meets all that a run requires, for the first iteration and for the next |
| `LeastSquares.MappingGivesLayouts` | g2o/g2o/core/block_solver.hpp:122-141 | The block ends counted separately for poses and landmarks are the two parts of the running offsets of all vertices |
| `BlockStructure.BuildStructure` | g2o/g2o/core/block_solver.hpp:143-269 | Exactly the needed blocks exist: on the diagonals, for every two poses that an edge joins (upper triangle only), for every pose and landmark that an edge joins, and in the Schur matrix for every two poses that an edge joins or a landmark sees; every pair of free vertices of every edge points at its block, transposed where needed; views are sorted and the Schur view misses no pair that the elimination needs |
| `BlockStructure.AllocateDiagonals` | g2o/g2o/core/block_solver.hpp:143-161 | Exactly the diagonal blocks exist afterwards |
| `BlockStructure.MapPair` | g2o/g2o/core/block_solver.hpp:184-225 | The block of a pair of free vertices exists, the edge's pointer for that pair names it with the right orientation, no other pointer of the edge changes, and a pair of poses enters the pattern of the Schur matrix |
| `BlockStructure.MapEdges` | g2o/g2o/core/block_solver.hpp:173-227 | All pairs of all edges are mapped, none of them to a block that a later edge takes away, and the pattern collected for the Schur matrix is that of the pose part without its diagonal |
| `BlockStructure.AddLandmarks` | g2o/g2o/core/block_solver.hpp:237-262 | For each landmark, every ordered pair of poses that share an edge with it enters the pattern, even if the pair comes from two edges, and nothing else does |
| `BlockStructure.PatternIsComplete` | g2o/g2o/core/block_solver.hpp:237-266 | For every landmark column and any two of its rows i1 <= i2, the transposed view of the Schur matrix lists block (i1, i2) |
| `BlockStructure.TakePatternFromHash` | g2o/g2o/core/sparse_block_matrix.hpp:686-720 | The blocks of the hashed pattern, and no others, are added to the matrix |
| `PairIndex.PairsApart` | g2o/g2o/core/base_fixed_sized_edge.h:60-62 | Different pairs i < j have different indices |
| `PairIndex.IndexOfPair` | g2o/g2o/core/base_fixed_sized_edge.h:86-88 | Going from an index to its pair and back gives the index, and the pair is ordered |
| `PairIndex.PairOfIndex` | g2o/g2o/core/base_fixed_sized_edge.h:60-88 | Going from a pair to its index and back gives the pair |
| `PairIndex.IndexRange` | g2o/g2o/core/base_variable_sized_edge.hpp:136-144 | The pairs of n vertices take exactly the indices below n(n-1)/2 |
| `SystemAssembly.Edge.MapHessianMemory` | g2o/g2o/core/base_variable_sized_edge.hpp:114-134 | Changes the pointer of the given pair and no other, within the array that `resize` allocates |
| `SystemAssembly.ConstructQuadraticForm` | g2o/g2o/core/base_fixed_sized_edge.hpp:89-130 | Adds exactly one edge's J^T Omega J to the blocks and -J^T Omega e to the right hand side, through transposed pointers too, for free vertices only, and changes no pattern |
| `SystemAssembly.AddPair` | g2o/g2o/core/base_variable_sized_edge.hpp:180-199 | One off-diagonal block, written as AtO B or as its transpose according to the pointer |
| `SystemAssembly.AddVertex` | g2o/g2o/core/base_variable_sized_edge.hpp:164-178 | One diagonal block and one part of the right hand side |
| `QuadraticForms.HessianInBlock` | g2o/g2o/core/base_fixed_sized_edge.hpp:112-130 | The blocks J_i^T Omega J_j are the entries of J^T Omega J for the edge's whole Jacobian over all free vertices |
| `QuadraticForms.HessianBlock` | g2o/g2o/core/block_solver.hpp:524-549 | An entry of the summed Hessian is the sum of the edges' block entries |
| `QuadraticForms.GradientBlock` | g2o/g2o/core/block_solver.hpp:556-562 | The same for the right hand side |
| `QuadraticForms.GainIsCostDecrease` | g2o/g2o/core/base_fixed_sized_edge.hpp:54-130 | What the normal equations mean: for F(x) = sum over the edges of (e + J x)^T Omega (e + J x), F(0) - F(x) = 2 b . x - x^T H x with the assembled H and b, for every increment x |
| `LeastSquares.SolutionMinimizes` | g2o/g2o/core/base_variable_sized_edge.hpp:42-178 | A solution of H x = b minimises F over all increments |
| `QuadraticForms.HessianSymmetric` | g2o/g2o/core/block_solver.hpp:551-562 | With symmetric information matrices the Hessian is symmetric |
| `QuadraticForms.HessianSemidefinite` | g2o/g2o/core/block_solver.hpp:551-562 | With positive semidefinite information matrices the Hessian is positive semidefinite |
| `LeastSquares.BuildSystem` | g2o/g2o/core/block_solver.hpp:493-565 | After it, whatever the blocks held before, they hold the sums over all edges linearised at the present estimates, and b holds each vertex's part of -J^T Omega e at its column |
| `LeastSquares.AssembledHolds` | g2o/g2o/core/block_solver.hpp:524-549 | Once all edges are summed up, the stored blocks are those of the dense Hessian |
| `LeastSquares.PoseEntries` | g2o/g2o/core/block_solver.hpp:493-565 | Of a store of the matrix H, the symmetric completion of Hpp is the pose part of H |
| `LeastSquares.CrossEntries` | g2o/g2o/core/block_solver.hpp:493-565 | Hpl is the part of H between poses and landmarks |
| `LeastSquares.LandmarkEntries` | g2o/g2o/core/block_solver.hpp:493-565 | Hll, with diagonal blocks only, is all of the landmark part of H |
| `LeastSquares.AssembledIsSemidefinite` | g2o/g2o/core/block_solver.hpp:493-565 | Every assembled Hessian is symmetric and positive semidefinite, which is what the step control needs |
| `LeastSquares.SolutionIsExact` | g2o/g2o/core/block_solver.hpp:345-476 | A solution of the block system is a solution of the dense system that the store holds |
| `LeastSquares.SolveNormalEquations` | g2o/g2o/core/block_solver.hpp:331-477 | With and without the Schur complement: the verdict is the linear solver's on the system with the landmarks eliminated, and the poses get its answer; success means an exact solution of the dense system that the blocks hold, given that the landmark blocks were inverted; the blocks are as before |
| `BlockSolver.BlockSolver.constructor` | g2o/g2o/core/block_solver.hpp:53-92 | Empty matrices that own their blocks, over the given layouts, and vectors of matching size |
| `BlockSolver.BlockSolver.SolveDirectly` | g2o/g2o/core/block_solver.hpp:331-343 | The branch without the Schur complement: the verdict and the increment are the linear solver's on the symmetric completion of Hpp and b, and success means a solution |
| `BlockSolver.BlockSolver.Solve` | g2o/g2o/core/block_solver.hpp:345-476 | The Schur branch: Hschur and bschur hold Hpp - E D^-1 E^T and bp - E D^-1 bl; it succeeds exactly if the linear solver succeeds on them, xp is its answer, xl is D^-1 (bl - E^T xp) on success and untouched otherwise; if the landmark blocks are symmetric and inverted, (xp, xl) solves [Hpp Hpl; Hpl^T Hll] x = b |
| `BlockSolver.BlockSolver.Reduce` | g2o/g2o/core/block_solver.hpp:350-433 | Hschur holds the reduced blocks and bschur is bp - E D^-1 bl |
| `BlockSolver.BlockSolver.SubtractPair` | g2o/g2o/core/block_solver.hpp:413-425 | The forward scan stops at exactly row i2, never passes the end, and the product is subtracted from that block only |
| `BlockSolver.BlockSolver.EliminatePose` | g2o/g2o/core/block_solver.hpp:384-426 | One pose of a landmark: its share of the coefficients and its products with all later poses |
| `BlockSolver.BlockSolver.BackSubstitute` | g2o/g2o/core/block_solver.hpp:452-474 | xl = D^-1 (bl - E^T xp), and xp is left alone |
| `SchurElimination.ReducePair` | g2o/g2o/core/block_solver.hpp:402-425 | Subtracting one pair's product brings exactly that block one step further |
| `SchurElimination.ReducedIsSchurComplement` | g2o/g2o/core/block_solver.hpp:350-427 | When all landmarks are eliminated, the symmetric completion of the reduced upper blocks is Hpp - E D^-1 E^T |
| `SchurElimination.AllCoefficients` | g2o/g2o/core/block_solver.hpp:373-400 | The accumulated coefficients are E D^-1 bl |
| `SchurComplement.SchurIsExact` | g2o/g2o/core/block_solver.hpp:441-473 | The pose solution of the reduced system together with the back-substituted landmarks solves both rows of the whole system |
| `SchurDefinite.SchurIsDefinite` | g2o/g2o/core/block_solver.hpp:402-447 | The Schur complement of a positive definite matrix is positive definite |
| `SchurDefinite.AskedIsDefinite` | g2o/g2o/core/block_solver.hpp:350-447 | If the blocks hold a positive definite matrix and the landmark blocks are inverted, what the linear solver is asked is symmetric and positive definite |
| `SchurDefinite.DampedIsSolved` | g2o/g2o/core/optimization_algorithm_levenberg.cpp:106-109 | With lambda > 0 a linear solver that can factorise symmetric positive definite matrices never fails on the reduced system of a semidefinite H |
| `SchurComplement.InverseSymmetric` | g2o/g2o/core/block_solver.hpp:367-371 | The inverse of a symmetric landmark block is symmetric |
| `BlockSolver.LandmarkInverses` | g2o/g2o/core/block_solver.hpp:359-371 | Inverting block by block inverts the whole landmark part |
| `CompressedViews.FillSparseBlockMatrixCCS` | g2o/g2o/core/sparse_block_matrix.hpp:645-664 | Each column lists exactly the blocks of the block column, in strictly ascending order, and the result is the number of blocks |
| `CompressedViews.FillSparseBlockMatrixCCSTransposed` | g2o/g2o/core/sparse_block_matrix.hpp:666-684 | Each list holds the blocks of one block row in strictly ascending order of their columns, none is missing, and the result is the number of blocks |
| `CompressedViews.Advance` | g2o/g2o/core/block_solver.hpp:417-421 | A scan for a row that is listed finds it without passing the end |
| `ViewProducts.RightMultiply` | g2o/g2o/core/sparse_block_matrix_ccs.h:106-133 | dest += M^T x for the dense matrix behind the view; nothing outside the segment changes |
| `ViewProducts.MultiplyTransposed` | g2o/g2o/core/sparse_block_matrix.hpp:319-350 | dest += M^T x, straight from the block columns |
| `BlockVectorProduct.Multiply` | g2o/g2o/core/sparse_block_matrix.hpp:254-282 | dest += M x for the dense matrix that the blocks denote |
| `BlockVectorProduct.RowPart` | g2o/g2o/core/sparse_block_matrix.hpp:270-281 | A block times its segment of x is what the block's columns contribute to the dense product |
| `DiagonalBlocks.Multiply` | g2o/g2o/core/sparse_block_matrix_diagonal.h:76-98 | dest += A x for the dense block-diagonal matrix |
| `DiagonalBlocks.DiagonalInverse` | g2o/g2o/core/block_solver.hpp:367-371 | Block-wise right inverses make up a right inverse of the whole |
| `SparseBlocks.SparseBlockMatrix.Block` | g2o/g2o/core/sparse_block_matrix.hpp:68-93 | Looks up or creates a block; the dense matrix is unchanged either way; it fails exactly if the block is missing, the matrix is a view and alloc is false |
| `SparseBlocks.SparseBlockMatrix.Clear` | g2o/g2o/core/sparse_block_matrix.hpp:45-61 | The dense matrix becomes zero; blocks are kept or dropped |
| `SparseBlocks.Axpy` | g2o/g2o/core/matrix_operations.h:54-58 | y += A x on segments, the rest of y unchanged |
| `SparseBlockAlgebra.Add` | g2o/g2o/core/sparse_block_matrix.hpp:168-198 | On equal layouts dest becomes the dense sum, and otherwise stays as it is |
| `SparseBlockAlgebra.TransposeInto` | g2o/g2o/core/sparse_block_matrix.hpp:123-155 | Where src has a block, dest becomes the transpose; elsewhere it keeps its entries |
| `SparseBlockAlgebra.IsTransposeIff` | g2o/g2o/core/sparse_block_matrix.hpp:123-155 | dest is the transpose exactly if it was zero outside the blocks of src |
| `BlockProducts.Multiply` | g2o/g2o/core/sparse_block_matrix.hpp:210-252 | dest gains the dense product A M, a new dest becomes it; it fails exactly if the inner layouts differ or dest is a view |
| `BlockProducts.SharePart` | g2o/g2o/core/sparse_block_matrix.hpp:234-247 | The product of two blocks is the part of the dense inner product that their common index range contributes |
| `SymmetricProduct.MultiplySymmetricUpperTriangle` | g2o/g2o/core/sparse_block_matrix.hpp:284-317 | dest += M x for the full symmetric matrix, using each stored block above the diagonal twice and ignoring blocks below it |
| `SymmetricProduct.FullIsUpper` | g2o/g2o/core/sparse_block_matrix.hpp:284-317 | With symmetric diagonal blocks that matrix is the symmetric completion of the upper triangle |
| `BlockPermutation.PermutedLayout` | g2o/g2o/core/sparse_block_matrix.hpp:456-471 | Scattering the sizes and summing them in place gives the layout whose block k has the size of block p(k) |
| `BlockPermutation.SymmPermutation` | g2o/g2o/core/sparse_block_matrix.hpp:452-513 | Entry (k, l) of the result is entry (s(k), s(l)) of the original for the scalar permutation s; in upper mode the same holds for the symmetric completions; a dest of another layout is refused and unchanged |
| `BlockPermutation.PermutedEntry` | g2o/g2o/core/sparse_block_matrix.hpp:485-511 | The entrywise statement behind it, from the placement of the blocks |
| `BlockPermutation.BlockToScalarPermutation` | g2o/g2o/core/linear_solver.h:121-140 | The output lists s(k) for every k below n and is a permutation of 0..n-1; it is reallocated just as the source does |
| `BlockPermutation.ScalarIsInjective` | g2o/g2o/core/linear_solver.h:131-139 | Different rows come from different rows of the same matrix |
| `BlockPermutation.ReorderedSize` | g2o/g2o/core/linear_solver.h:131-139 | The permuted layout has the same total size |
| `CompressedColumns.FillCCS` | g2o/g2o/core/sparse_block_matrix.hpp:541-571 | Column starts are monotone from 0 to nz, rows within a column strictly ascending, and every column reads back as the dense column (in upper mode without what lies below the diagonal of diagonal blocks) |
| `CompressedColumns.FillCCSValues` | g2o/g2o/core/sparse_block_matrix.hpp:515-539 | Writes the same values in the same order |
| `CompressedColumns.ViewFillCCS` | g2o/g2o/core/sparse_block_matrix_ccs.h:144-173 | The version on a view has the same properties and fills the same arrays |
| `CompressedColumns.ViewFillCCSValues` | g2o/g2o/core/sparse_block_matrix_ccs.h:175-201 | The value-only version on a view, with its running column start, writes the same values in the same order |
| `CompressedColumns.FilledAlike` | g2o/g2o/core/sparse_block_matrix_ccs.h:144-173 | Two fills of one matrix agree in length, starts, rows and values |
| `CompressedColumns.ColumnReadsBack` | g2o/g2o/core/sparse_block_matrix.hpp:546-567 | What is listed for a column denotes the dense column |
| `CompressedColumns.KeptIsUpper` | g2o/g2o/core/sparse_block_matrix.hpp:541-571 | If only upper blocks are stored, upper mode writes exactly the upper triangle |
| `MarginalCovariance.CovIsInverse` | g2o/g2o/core/marginal_covariance_cholesky.cpp:69-98 | For every lower triangular factor L with non-zero diagonal, the values of the recursion are the two-sided inverse of L L^T |
| `MarginalCovariance.PermutedCovIsInverse` | g2o/g2o/core/marginal_covariance_cholesky.cpp:108-117 | Permuted back, they are the two-sided inverse of the matrix that was permuted before the factorisation |
| `MarginalCovariance.CovarianceIsTheInverse` | g2o/g2o/core/marginal_covariance_cholesky.cpp:108-117 | With a permutation or without one: whatever inverts the matrix that was factored has these entries |
| `MarginalCovariance.MarginalCovarianceCholesky.ComputeEntry` | g2o/g2o/core/marginal_covariance_cholesky.cpp:69-98 | The memoised recursion terminates (2n - r - c decreases), returns the value of the plain recursion, and leaves the table consistent with it |
| `MarginalCovariance.MarginalCovarianceCholesky.ComputeEntries` | g2o/g2o/core/marginal_covariance_cholesky.cpp:123-127 | Whatever the order of the requests, the table ends up consistent and holds all of them |
| `MarginalCovariance.IndexInjective` | g2o/g2o/core/marginal_covariance_cholesky.h:92-95 | The key r n + c determines r and c |
| `MarginalCovariance.MarginalCovarianceCholesky.SetCholeskyFactor` | g2o/g2o/core/marginal_covariance_cholesky.cpp:51-67 | Takes the factor over with the reciprocals of its diagonal and leaves the lookup table as it is; the table fits exactly if its entries are those of the new factor, and both `computeCovariance` start by clearing it |
| `MarginalCovariance.MarginalCovarianceCholesky.ComputeCovariance` | g2o/g2o/core/marginal_covariance_cholesky.cpp:100-150 | Every block, mirrored entries included, holds its part of the permuted inverse of L L^T, that is of the inverse of any matrix H whose reordering was factored |
| `SparseCovariance.ComputeSparseCovariance` | g2o/g2o/core/marginal_covariance_cholesky.cpp:152-216 | The matrix has exactly the requested blocks, and each of their entries is that of the inverse of any matrix H whose reordering was factored |
| `TriangularInverse.TwoSidedInverse` | g2o/g2o/core/marginal_covariance_cholesky.cpp:78-95 | A symmetric S whose upper rows solve the recursion inverts L L^T from both sides |
| `TriangularInverse.SandwichIsIdentity` | g2o/g2o/core/marginal_covariance_cholesky.cpp:78-95 | L^T S L is the identity |
| `HyperDijkstra.HyperDijkstra.ShortestPaths` | g2o/g2o/core/hyper_dijkstra.cpp:87-152 | Terminates despite outdated heap copies; on return exactly the reached vertices are settled, each distance is explained by its parent, starts keep distance 0 and no parent, and every edge of a settled vertex is relaxed up to the slack; conversely no parent was taken for a gain within the slack: if vertices settled before the parent offered ways inside the radius, one of them is longer by more than the slack |
| `HyperDijkstra.HyperDijkstra.SettleNext` | g2o/g2o/core/hyper_dijkstra.cpp:108-151 | One pop: a new vertex is settled or the heap shrinks, and the invariants of the search survive |
| `HyperDijkstra.HyperDijkstra.Reset` | g2o/g2o/core/hyper_dijkstra.cpp:71-80 | Restores the initial map |
| `HyperDijkstra.DistanceIsPathCost` | g2o/g2o/core/hyper_dijkstra.cpp:133-148 | Every finite distance is the cost of an allowed path within the radius |
| `HyperDijkstra.PathBoundsDistance` | g2o/g2o/core/hyper_dijkstra.cpp:137-148 | For an allowed path of k edges and cost P, the distance of its end is at most P + k slack, as far as that stays within the radius |
| `HyperDijkstra.ExactWithoutSlack` | g2o/g2o/core/hyper_dijkstra.cpp:137-148 | Without slack a vertex is reached exactly if a path within the radius leads to it, and at the least cost |
| `ShortestPathTree.ComputeTree` | g2o/g2o/core/hyper_dijkstra.cpp:165-183 | The children sets become exactly the inverse of the parent links, which do not change |
| `ShortestPathTree.VisitAdjacencyMap` | g2o/g2o/core/hyper_dijkstra.cpp:185-225 | Terminates on every tree map; no vertex is visited twice, parents come before children, roots and children of visited vertices are all visited with the right arguments |
| `ShortestPathTree.SearchGivesForest` | g2o/g2o/core/hyper_dijkstra.cpp:142-148 | After a search the parent links have no cycle, even with edges of cost zero |
| `ShortestPathTree.EverythingVisited` | g2o/g2o/core/hyper_dijkstra.cpp:185-225 | Without a cycle every vertex of the map is visited |
| `ShortestPathTree.VisitsAreVertices` | g2o/g2o/core/hyper_dijkstra.cpp:165-225 | After a search and the rebuilding of the children sets, the traversal visits exactly the vertices of the graph |
| `ShortestPathTree.VisitShortestPaths` | g2o/g2o/solvers/slam2d_linear/solver_slam2d_linear.cpp:158-164 | Search, tree and traversal together: every vertex of the graph is visited exactly once, after its parent, with the edge and distance that the search found, and the searcher can be used again |
| `EstimatePropagator.EstimatePropagator.Propagate` | g2o/g2o/core/estimate_propagator.cpp:95-173 | For any cost function: vertices are settled once, in the order of their distances, and exactly the reached ones; each has a usable edge and a from-set on that edge with a settled vertex whose distance plus the cost of the edge from this from-set is its own; the run fails exactly by reaching a vertex whose child was emptied, never on an unused map, never from starts that no edges connect with an emptied vertex, and if every edge may be taken it succeeds exactly from such starts |
| `EstimatePropagator.EstimatePropagator.RelaxEdge` | g2o/g2o/core/estimate_propagator.cpp:129-170 | The new entry of every vertex after one edge of a settled vertex: exactly those that come nearer inside the radius change, with the from-set of all that were initialised on the edge before, themselves left out, at one level above the highest of them |
| `EstimatePropagator.PropagateTwice` | g2o/g2o/core/estimate_propagator.cpp:54-84 | On a new propagator the first propagation from a vertex succeeds and the second one fails |
| `EstimatePropagator.ReachedInside` | g2o/g2o/core/estimate_propagator.cpp:124-170 | A search never leaves a set of vertices that contains its starts and that no edge leads out of |
| `EstimatePropagator.VisitedIsClosed` | g2o/g2o/core/estimate_propagator.cpp:144-170 | If every edge may be taken, no edge leads out of the settled vertices |
| `EstimatePropagator.ActionsOfFinishedRun` | g2o/g2o/core/estimate_propagator.cpp:114-122 | The action runs exactly once on each reached vertex that is not a start and never on a start, with a from-set that contains an already settled vertex of strictly smaller distance |
| `EstimatePropagator.EstimatePropagator.Pop` | g2o/g2o/core/estimate_propagator.cpp:221-232 | The popped vertex was not settled before, and distances never decrease from pop to pop |
| `EstimatePropagator.PushKeepsQueue` | g2o/g2o/core/estimate_propagator.cpp:209-219 | Decrease-key keeps the queue: every waiting entry is in it exactly once and under its present distance, settled ones are not, and no key is below what was popped |
| `EstimatePropagator.EstimatePropagator.Reset` | g2o/g2o/core/estimate_propagator.cpp:75-84 | Resets the visited entries; the initial map is intact afterwards exactly if nothing had been visited |
| `EstimatePropagator.StartsAreVisited` | g2o/g2o/core/estimate_propagator.cpp:102-112 | All starts end up settled |
| `HyperGraph.HyperGraph.AddVertex` | g2o/g2o/core/hyper_graph.cpp:75-78 | Files the vertex unless its id is taken; consistency is kept |
| `HyperGraph.HyperGraph.ChangeId` | g2o/g2o/core/hyper_graph.cpp:84-91 | Refiles the vertex under its new id exactly if that id is its old one or unused; the links do not change |
| `HyperGraph.HyperGraph.AddEdge` | g2o/g2o/core/hyper_graph.cpp:93-121 | Succeeds exactly for a new edge whose vertices are defined and pairwise different, and then links it with all of them |
| `HyperGraph.HyperGraph.HasDuplicates` | g2o/g2o/core/hyper_graph.cpp:98-111 | The three ways of looking for duplicates decide the same question |
| `HyperGraph.HyperGraph.SetEdgeVertex` | g2o/g2o/core/hyper_graph.cpp:123-130 | One position of one edge and the sets of two vertices change, and nothing else, whether or not the edge has been added to the graph |
| `HyperGraph.LinkedAfterUpdate` | g2o/g2o/core/hyper_graph.cpp:123-130 | The links stay consistent exactly if the replaced vertex is not at another position of the edge |
| `HyperGraph.DistinctAfter` | g2o/g2o/core/hyper_graph.cpp:123-130 | No vertex is doubled exactly if the new one is not at another position |
| `HyperGraph.HyperGraph.MergeVertices` | g2o/g2o/core/hyper_graph.cpp:132-150 | All edges of the small vertex list the big one instead and the links stay consistent; the graph stays valid exactly if no edge was incident to both |
| `HyperGraph.LinkedAfterRetargeting` | g2o/g2o/core/hyper_graph.cpp:139-147 | Retargeting all edges of a vertex keeps "e in v.edges iff v in e.vertices" |
| `HyperGraph.DistinctAfterRetargeting` | g2o/g2o/core/hyper_graph.cpp:139-147 | It doubles a vertex exactly if an edge was incident to both |
| `HyperGraph.MergedTwice` | g2o/g2o/core/hyper_graph.cpp:132-150 | Merging the two vertices of an edge puts one of them into it twice |
| `HyperGraph.HyperGraph.DetachVertex` | g2o/g2o/core/hyper_graph.cpp:152-164 | The vertex is undefined in all its edges and has none left; consistency is kept |
| `HyperGraph.HyperGraph.RemoveVertex` | g2o/g2o/core/hyper_graph.cpp:166-186 | The vertex is gone, with its edges or, detached, without them; consistency is kept |
| `HyperGraph.HyperGraph.RemoveEdge` | g2o/g2o/core/hyper_graph.cpp:188-202 | The edge leaves the graph and the sets of its vertices; each of them does hold it when it is taken out |
| `HyperGraph.HyperGraph.Disconnect` | g2o/g2o/core/hyper_graph.cpp:192-199 | Each vertex of the edge holds it when it is taken out exactly if no vertex is listed twice; then the edge is in none of their sets any more |
| `GraphOptimizer.SparseOptimizer.BuildIndexMapping` | g2o/g2o/core/sparse_optimizer.cpp:175-200 | The mapping lists the free vertices, poses first; each knows its position, fixed ones get -1 |
| `GraphOptimizer.IndexMappingIsBijection` | g2o/g2o/core/sparse_optimizer.cpp:182-198 | Every free vertex is listed exactly once and poses precede landmarks |
| `GraphOptimizer.SparseOptimizer.AssignColumns` | g2o/g2o/core/block_solver.hpp:119-137 | Columns and block ends are counted separately for poses and landmarks |
| `GraphOptimizer.SparseOptimizer.Update` | g2o/g2o/core/sparse_optimizer.cpp:457-468 | Every vertex is moved by its own slice of the increment |
| `GraphOptimizer.SparseOptimizer.CopyB` | g2o/g2o/core/block_solver.hpp:556-562 | Every vertex's part of b is at the offset where `update` reads its increment |
| `GraphOptimizer.BaseIsOffset` | g2o/g2o/core/block_solver.hpp:556-562 | The column where b is stored and the running offset of `update` are the same number |
| `GraphOptimizer.Vertex.Push` | g2o/g2o/core/base_vertex.h:111-111 | Saves the estimate on top of the stack |
| `GraphOptimizer.Vertex.Pop` | g2o/g2o/core/base_vertex.h:112-117 | Restores the estimate on top and takes it off |
| `GraphOptimizer.Vertex.DiscardTop` | g2o/g2o/core/base_vertex.h:118-121 | Takes the top off and leaves the estimate |
| `GraphOptimizer.SparseOptimizer.Undo` | g2o/g2o/core/sparse_optimizer.cpp:552-555 | After a push, whatever happened to the estimates, pop restores all of them and all stacks |
| `GraphOptimizer.SparseOptimizer.Keep` | g2o/g2o/core/sparse_optimizer.cpp:565-568 | After a push, discardTop restores all stacks and keeps the estimates |
| `BlockSolver.BlockSolver.SetLambda` | g2o/g2o/core/block_solver.hpp:567-590 | The diagonal blocks of Hpp and Hll, and no others, get lambda added to their diagonals, which are saved before when asked to |
| `BlockSolver.BlockSolver.RestoreDiagonal` | g2o/g2o/core/block_solver.hpp:592-606 | The saved diagonals replace those of the diagonal blocks, and nothing else changes |
| `Damping.RaisedIsDamped` | g2o/g2o/core/block_solver.hpp:576-588 | A store of H becomes a store of H + lambda I |
| `Damping.RestoringUndoes` | g2o/g2o/core/block_solver.hpp:592-606 | Restoring after raising gives back every block and every entry |
| `Damping.SolveDamped` | g2o/g2o/core/optimization_algorithm_levenberg.cpp:106-118 | On the block system: the verdict is the linear solver's on the damped blocks with the landmarks eliminated; success with inverted landmark blocks means an exact solution of (H + lambda I) x = b, and afterwards the blocks hold H again |
| `NormalEquations.ShiftedIsDamped` | g2o/g2o/core/block_solver.hpp:576-588 | On a system whose diagonal is kept apart, the shifted matrix is H + lambda I |
| `NormalEquations.SolveDamped` | g2o/g2o/core/optimization_algorithm_levenberg.cpp:106-118 | Solves H + lambda I with the linear solver's own verdict and answer, and leaves H as it was |
| `DampedNewton.NewtonGain` | g2o/g2o/core/optimization_algorithm_dogleg.cpp:157-159 | A damped Newton step has predicted gain x^T H x + 2 lambda x^T x, hence a non-negative one |
| `DampedNewton.LevenbergScale` | g2o/g2o/core/optimization_algorithm_levenberg.cpp:169-176 | The scale is non-negative, so with the added 1e-3 the gain ratio has the sign of the gain |
| `DampedNewton.SteepestGain` | g2o/g2o/core/optimization_algorithm_dogleg.cpp:160-162 | Any part of the Cauchy step has non-negative predicted gain |
| `QuadraticModel.GainConcave` | g2o/g2o/core/optimization_algorithm_dogleg.cpp:185-188 | Along a segment the model's gain is at least the interpolated one |
| `Levenberg.OptimizationAlgorithmLevenberg.Solve` | g2o/g2o/core/optimization_algorithm_levenberg.cpp:60-153 | Every trial of the iteration is named: its lambda after that many rejections, the damped matrix that the linear solver was given, its answer, and the estimates moved by it. All but the last were rejected with trials left and no request to stop; the last lowers the cost, leaves it or ends the loop. From the last follow the estimates, the result, and the new lambda and ni: after an improvement lambda times the factor of rho, where rho (x . (lambda x + b) + 0.001) is the decrease of the cost |
| `Levenberg.OkAfterRejection` | g2o/g2o/core/optimization_algorithm_levenberg.cpp:147-153 | With a maximum of 0 trials and a linear solver that fails, the result is OK although no estimate has changed |
| `Levenberg.OptimizationAlgorithmLevenberg.Trial` | g2o/g2o/core/optimization_algorithm_levenberg.cpp:99-145 | One trial: H restored, stacks restored, accepted exactly for a lower cost with the new lambda and ni, and undone completely otherwise |
| `Levenberg.OptimizationAlgorithmLevenberg.Optimize` | g2o/g2o/core/sparse_optimizer.cpp:393-455 | A whole run: its iterations are named, each starting with the estimates, lambda and ni that the one before left; it ends by the number of iterations, by a request to stop or by a result that is not OK, and returns their number; the robust cost never increases and the stacks end as they began |
| `Levenberg.LambdaGrowth` | g2o/g2o/core/optimization_algorithm_levenberg.cpp:140-141 | k rejections in a row starting from ni = 2 multiply lambda by exactly 2^(k(k+1)/2) |
| `Levenberg.GoodStepScale` | g2o/g2o/core/optimization_algorithm_levenberg.cpp:131-134 | The factor after a good step is 2/3 if (2 rho - 1)^3 <= 1/3, 1/3 if it is at least 2/3, and 1 - (2 rho - 1)^3 in between |
| `Levenberg.OptimizationAlgorithmLevenberg.NumberOfTrials` | g2o/g2o/core/optimization_algorithm_levenberg.cpp:99-148 | There is always one trial, and never more than the maximum otherwise |
| `Levenberg.OptimizationAlgorithmLevenberg.IterationLowers` | g2o/g2o/core/optimization_algorithm_levenberg.cpp:128-145 | An iteration lowers the cost or leaves the estimates as they were |
| `Levenberg.BetterStepLessDamping` | g2o/g2o/core/optimization_algorithm_levenberg.cpp:131-134 | It does not grow with the gain ratio |
| `Levenberg.OptimizationAlgorithmLevenberg.ComputeLambdaInit` | g2o/g2o/core/optimization_algorithm_levenberg.cpp:155-167 | The user's value if positive, else tau times the largest magnitude on the diagonal |
| `Levenberg.OptimizationAlgorithmLevenberg.ComputeScale` | g2o/g2o/core/optimization_algorithm_levenberg.cpp:169-176 | The loop computes x . (lambda x + b) |
| `DoglegStep.BetaIsRoot` | g2o/g2o/core/optimization_algorithm_dogleg.cpp:168-176 | Both formulas for beta give a root of the same quadratic |
| `DoglegStep.BetaRange` | g2o/g2o/core/optimization_algorithm_dogleg.cpp:164-178 | It lies in [0, 1]; exactly when it is 0 and exactly when it is 1 |
| `DoglegStep.DoglegOnBoundary` | g2o/g2o/core/optimization_algorithm_dogleg.cpp:164-182 | The interpolated step ends exactly on the boundary, in any dimension |
| `DoglegStep.ComputeBeta` | g2o/g2o/core/optimization_algorithm_dogleg.cpp:164-178 | The same of the computed value |
| `DoglegStep.ChooseStep` | g2o/g2o/core/optimization_algorithm_dogleg.cpp:157-183 | Gauss-Newton if it is shorter than the radius, else the cut steepest-descent step or the interpolated one |
| `DoglegStep.StepWithinRegion` | g2o/g2o/core/optimization_algorithm_dogleg.cpp:157-183 | No step leaves the trust region, and only the Gauss-Newton step ends strictly inside |
| `DoglegStep.StepGain` | g2o/g2o/core/optimization_algorithm_dogleg.cpp:185-188 | All three kinds of step have non-negative predicted gain, for H positive semidefinite and any lambda >= 0 |
| `Dogleg.OptimizationAlgorithmDogleg.Solve` | g2o/g2o/core/optimization_algorithm_dogleg.cpp:62-216 | Every run of the linear solver and every trial of the iteration is named: the damping, the matrix and the answer of each run, and the radius, step, estimates, gain ratio and length of each trial. All trials but the last were undone; from the last follow the estimates, the radius and the result; without a solution there is no trial, nothing moves and the result is Fail |
| `Dogleg.OptimizationAlgorithmDogleg.TakeTrial` | g2o/g2o/core/optimization_algorithm_dogleg.cpp:154-211 | One trial: kept exactly if its step exists and the cost drops, undone otherwise, and the radius follows from rho times the predicted gain being the actual one |
| `Dogleg.OptimizationAlgorithmDogleg.SolveGaussNewton` | g2o/g2o/core/optimization_algorithm_dogleg.cpp:121-152 | The retries terminate: all runs but the last failed, the first is undamped unless an earlier iteration had failed, and lambda grows by its factor from run to run; a success is an exact solution of H + lambda I and, unless nothing ever failed, relaxes lambda; a failure ends at the largest lambda; H is restored |
| `Dogleg.OptimizationAlgorithmDogleg.ControlDamping` | g2o/g2o/core/optimization_algorithm_dogleg.cpp:136-149 | After a success lambda is divided by half the factor but not below 1e-12; after a failure it is multiplied by the factor, and the iteration fails exactly if that exceeds 1000 |
| `Dogleg.HalvedIsQuotient` | g2o/g2o/core/optimization_algorithm_dogleg.cpp:210-211 | k halvings divide delta by 2^k |
| `Dogleg.RatioSign` | g2o/g2o/core/optimization_algorithm_dogleg.cpp:195-200 | rho > 0 exactly if the cost drops |
| `Dogleg.NextDelta` | g2o/g2o/core/optimization_algorithm_dogleg.cpp:207-211 | Above rho = 0.75 the radius grows to three step lengths if these are more, below 0.25 it is halved, in between it stays; it stays positive |
| `Dogleg.OptimizationAlgorithmDogleg.TrialGain` | g2o/g2o/core/optimization_algorithm_dogleg.cpp:185-200 | Every trial whose step exists has a non-negative predicted gain |
| `Dogleg.OptimizationAlgorithmDogleg.RejectionsHalve` | g2o/g2o/core/optimization_algorithm_dogleg.cpp:154-211 | An iteration whose steps all existed and were all rejected leaves the estimates alone and has halved the radius once per trial |
| `Jets.JetsDifferentiate` | g2o/g2o/autodiff/jet.h:258-353 | For every expression built from +, -, *, / of jets and scalars that has a value, evaluation on seeded jets gives that value, and its infinitesimal part is the derivative by every parameter |
| `Jets.JetsEvaluate` | g2o/g2o/autodiff/jet.h:258-353 | The scalar part is the plain value |
| `Jets.DerivativeUnique` | g2o/g2o/autodiff/jet.h:160-255 | There is only one number that can be called the derivative |
| `Calculus.ProductRule` | g2o/g2o/autodiff/jet.h:308-312 | The product rule, with an explicit quadratic remainder |
| `Calculus.ReciprocalRule` | g2o/g2o/autodiff/jet.h:326-346 | The rule for 1/g near a non-zero value, with an explicit remainder and radius |
| `AutoDiff.AutoDifferentiate` | g2o/g2o/autodiff/autodiff.h:293-340 | For any block sizes: the plain values, and in block k at row i and column c the partial derivative of output i by parameter k[c]; nothing is written if the functor fails |
| `AutoDiff.Make1stOrderPerturbations` | g2o/g2o/autodiff/autodiff.h:209-231 | Every parameter is seeded as the variable of its own prefix-sum offset |
| `AutoDiff.Take0thOrderPart` | g2o/g2o/autodiff/autodiff.h:235-240 | Copies the values and nothing more |
| `AutoDiff.Take1stOrderParts` | g2o/g2o/autodiff/autodiff.h:269-291 | Each requested Jacobian gets, row by row, the segment of the infinitesimal parts at its block's offset |
| `AutoDiff.SumIsPrefix` | g2o/g2o/autodiff/integer_sequence_algorithm.h:60-94 | Summing four, two or one at a time gives the sum |
| `AutoDiff.ScanIsPrefix` | g2o/g2o/autodiff/integer_sequence_algorithm.h:130-158 | The exclusive scan lists the prefix sums, the offsets at which parameters are unpacked |
| `Unscented.SampleUnscented` | g2o/g2o/stuff/unscented.h:47-74 | The 2d+1 points and weights, with 0.000001/1.000001 for the mean at the centre and 2.999999 more for the covariance; it fails exactly if the decomposition does |
| `Unscented.PairOfPoints` | g2o/g2o/stuff/unscented.h:66-72 | Column i of the factor is added to the mean in point 2i+1 and subtracted in point 2i+2 |
| `Unscented.ReconstructGaussian` | g2o/g2o/stuff/unscented.h:76-89 | The weighted mean and covariance of any points |
| `Unscented.RoundTrip` | g2o/g2o/stuff/unscented.h:47-89 | Reconstructing from the samples gives back the mean and the covariance, for every dimension d > 0 |
| `Unscented.WeightsSumToOne` | g2o/g2o/stuff/unscented.h:54-62 | The weights of the mean add up to one |

## Left out

What follows is idealised or not modelled.

- Rounding, NaN and overflow of `double` and `int`: numbers are `real` and `int`. A failed linear solve is a flag, and its cost counts as larger than any other.
- Eigen and the concrete linear solvers: inversion, factorisation and solving are parameters with a contract (a solver that reports success has solved the system).
- Block pointers are handles (matrix, row, column); ownership and freeing of memory are not part of this model.
- Uninitialised memory: blocks that the hashed pattern allocates without zeroing count as zero, as `clear` sets them before they are read.
- The return value of `buildSystem`, which is always false and never looked at.
- OpenMP: loops run sequentially.
- The order of `std::set`, of equal keys in the searches' queues and of edges in a set is arbitrary, which is more general.
- Robust kernels: their weight is part of the information matrix of an edge, as `robustInformation` makes it; the kernel functions themselves are not part of this model.
- Numeric differentiation: an edge comes with a function from the estimates to its Jacobians, error and information.
- Edges that join two landmarks, `updateStructure` and `updateInitialization`: the source does not support them with the Schur complement.
- `initializeOptimization` and `computeInitialGuess`: easy filters over the graph; the list of active vertices is a parameter.
- Jet functions beyond +, -, *, / (powers, exponentials, trigonometry): they would need analysis that adds nothing about the engine.
- Parameters, caches, files, factories, timers, batch statistics, command-line tools and everything under race_stack, build_context and the examples.
- Dogleg.OptimizationAlgorithmDogleg.Solve: `initialDelta`, `initialLambda` and `lambdaFactor - 1` are positive, without which the retries need not terminate; b and H come from a system that is not reduced, as in the source.
- Levenberg.OptimizationAlgorithmLevenberg.Solve: it and the dogleg run on `NormalEquations.BlockSystem`, a matrix with its diagonal kept apart, and not on the blocks themselves. That the blocks damp, solve and restore in the same way is `Damping.SolveDamped`, and that an assembled system meets the assumptions is `LeastSquares.AssembledIsSemidefinite`.
- GaussNewton.Optimize: a forced stop, the online mode and the callbacks around an iteration are left out; the Schur pattern is set up even if there are no landmarks, in which case it is not used.
- BlockProducts.Multiply: the layout of a given `dest` fits when the product is formed, as the source asserts block by block.
- CompressedColumns.FillCCS: in upper mode blocks have at least one row, without which the source reads past the end of a block.
- BlockPermutation.SymmPermutation: the matrix has at least one block, since the source reads the first block's size unasked.
- EstimatePropagator.EstimatePropagator.Propagate: a null dereference is modelled by stopping with ok = false. For a cost that refuses some edges, whether a run reaches an emptied vertex can depend on the order in which sets are iterated, so before the call only the condition that is right for every cost is stated.
