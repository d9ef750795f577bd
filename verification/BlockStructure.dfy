/**
 Setting up the block system: allocating the blocks every edge writes to, and the pattern of the Schur
 matrix, which must hold a block for every pair of poses that share a landmark.
 */
module BlockStructure {
  import opened Options
  import opened SparseBlocks
  import opened CompressedViews
  import opened PairIndex
  import opened SystemStore
  import opened BlockSolver
  import opened SystemAssembly
  import opened LeastSquares

  ghost predicate Touches(ends: seq<Option<nat>>, i: nat) {
    exists s :: 0 <= s < |ends| && ends[s] == Some(i)
  }

  /** No block disappears. */
  ghost predicate Grows(st: Store, st': Store, np: nat) {
    forall i: nat, j: nat :: Present(st, np, i, j) ==> Present(st', np, i, j)
  }

  lemma GrowthChains(st: Store, mid: Store, st': Store, np: nat)
    requires Grows(st, mid, np) && Grows(mid, st', np)
    ensures Grows(st, st', np)
  {
    hide Present;
  }

  lemma KeepsMapped(ends: seq<Option<nat>>, hessian: seq<Pointer>, st: Store, st': Store, np: nat)
    requires Grows(st, st', np)
    requires EdgeMapped(ends, hessian, st, np)
    ensures EdgeMapped(ends, hessian, st', np)
  {
    hide Present;
    forall u: nat, v: nat | u < v < |ends| ensures PairMapped(ends, hessian, st', np, u, v) {
      assert PairMapped(ends, hessian, st, np, u, v);
    }
  }

  lemma DiagonalGrows(st: Store, st': Store, np: nat, n: nat)
    requires Grows(st, st', np) && DiagonalPresent(st, np, n)
    ensures DiagonalPresent(st', np, n)
  {
    hide Present;
  }

  /** Every pose-landmark block was asked for by an edge. */
  ghost predicate Witnessed(hpl: BlockColumns, edges: seq<Edge>, np: nat) {
    forall l, r: nat :: 0 <= l < |hpl| && r in hpl[l] ==> JointlyTouched(edges, r, np + l)
  }

  ghost predicate JointlyTouched(edges: seq<Edge>, i: nat, j: nat) {
    exists k :: 0 <= k < |edges| && Touches(edges[k].ends, i) && Touches(edges[k].ends, j)
  }

  /** Every block off the diagonal of the pose part was asked for by an edge. */
  ghost predicate PoseWitnessed(hpp: BlockColumns, edges: seq<Edge>) {
    forall c, r: nat :: 0 <= c < |hpp| && r in hpp[c] ==> r == c || (r < c && JointlyTouched(edges, r, c))
  }

  /** The pattern collected for the Schur matrix so far: the blocks of the pose part off its diagonal. */
  ghost predicate Mirrors(lookup: seq<set<nat>>, hpp: BlockColumns) {
    |lookup| == |hpp| && forall c: nat, r: nat :: c < |hpp| ==> (r in lookup[c] <==> r in hpp[c] && r != c)
  }

  /** The state of the construction. */
  ghost predicate Building(solver: BlockSolver, edges: seq<Edge>, np: nat, n: nat)
    reads solver.Hpp, solver.Hpl, solver.Hll, solver.Hschur
  {
    && solver.Shapes() && |solver.Hpp.rowBlockIndices| == np <= n && |solver.Hll.colBlockIndices| == n - np
    && DiagonalOnly(solver.Hll.blockCols) && Witnessed(solver.Hpl.blockCols, edges, np) && PoseWitnessed(solver.Hpp.blockCols, edges)
    && DiagonalPresent(StoreOf(solver), np, n) && solver.Hpp.hasStorage && solver.Hpl.hasStorage && solver.Hll.hasStorage
  }

  method AllocateDiagonals(solver: BlockSolver, np: nat, n: nat, ghost edges: seq<Edge>)
    requires solver.Shapes() && |solver.Hpp.rowBlockIndices| == np <= n && |solver.Hll.colBlockIndices| == n - np
    requires EmptyColumns(solver.Hpp.blockCols) && EmptyColumns(solver.Hpl.blockCols) && EmptyColumns(solver.Hll.blockCols)
    requires solver.Hpp.hasStorage && solver.Hpl.hasStorage && solver.Hll.hasStorage
    modifies solver.Hpp, solver.Hll
    ensures Building(solver, edges, np, n) && forall c, r: nat :: 0 <= c < np ==> (r in solver.Hpp.blockCols[c] <==> r == c)
  {
    for i := 0 to np
      invariant solver.Shapes() && EmptyColumns(solver.Hll.blockCols)
      invariant forall c, r: nat :: 0 <= c < np ==> (r in solver.Hpp.blockCols[c] <==> r == c && c < i)
    {
      var _ := solver.Hpp.Block(i, i, true);
    }
    for l := 0 to n - np
      invariant solver.Shapes() && forall c, r: nat :: 0 <= c < np ==> (r in solver.Hpp.blockCols[c] <==> r == c)
      invariant forall c, r: nat :: 0 <= c < n - np ==> (r in solver.Hll.blockCols[c] <==> r == c && c < l)
    {
      var _ := solver.Hll.Block(l, l, true);
    }
  }

  /** The same blocks, and block (r, c). */
  ghost predicate BlockAdded(before: BlockColumns, after: BlockColumns, r: nat, c: nat) {
    |after| == |before| && forall c': nat, r': nat :: c' < |before| ==>
      (r' in after[c'] <==> r' in before[c'] || (r' == r && c' == c))
  }

  lemma MirrorsStill(lookup: seq<set<nat>>, before: BlockColumns, after: BlockColumns, r: nat, c: nat)
    requires Mirrors(lookup, before) && BlockAdded(before, after, r, c) && r < c < |before|
    ensures Mirrors(lookup[c := lookup[c] + {r}], after)
  {
  }

  method AllocatePosePair(solver: BlockSolver, lo: nat, hi: nat, np: nat, ghost n: nat, ghost edges: seq<Edge>)
    requires Building(solver, edges, np, n) && lo < hi < np && JointlyTouched(edges, lo, hi)
    modifies solver.Hpp
    ensures Building(solver, edges, np, n) && Grows(old(StoreOf(solver)), StoreOf(solver), np)
    ensures Present(StoreOf(solver), np, lo, hi) && BlockAdded(old(solver.Hpp.blockCols), solver.Hpp.blockCols, lo, hi)
  {
    hide JointlyTouched;
    ghost var st := StoreOf(solver);
    var _ := solver.Hpp.Block(lo, hi, true);
    DiagonalGrows(st, StoreOf(solver), np, n);
  }

  method AllocateCross(solver: BlockSolver, r: nat, l: nat, np: nat, ghost n: nat, ghost edges: seq<Edge>)
    requires Building(solver, edges, np, n) && r < np && l < n - np && JointlyTouched(edges, r, np + l)
    modifies solver.Hpl
    ensures Building(solver, edges, np, n) && Grows(old(StoreOf(solver)), StoreOf(solver), np)
    ensures Present(StoreOf(solver), np, r, np + l)
  {
    hide JointlyTouched;
    ghost var st := StoreOf(solver);
    var _ := solver.Hpl.Block(r, l, true);
    DiagonalGrows(st, StoreOf(solver), np, n);
  }

  /** Allocates the block of one pair of free vertices and tells the edge where it is. */
  method MapPair(solver: BlockSolver, edges: seq<Edge>, k: nat, np: nat, u: nat, v: nat, ghost n: nat, lookup: seq<set<nat>>)
    returns (lookup': seq<set<nat>>)
    requires Building(solver, edges, np, n) && k < |edges| && Supported(edges[k].ends, np, n)
    requires u < v < |edges[k].ends| && |edges[k].hessian| == Triangle(|edges[k].ends|)
    requires edges[k].ends[u].Some? && edges[k].ends[v].Some?
    requires Mirrors(lookup, solver.Hpp.blockCols)
    modifies solver.Hpp, solver.Hpl, edges[k]
    ensures Building(solver, edges, np, n) && Grows(old(StoreOf(solver)), StoreOf(solver), np)
    ensures |edges[k].hessian| == |old(edges[k].hessian)| && 0 <= PairToIndex(u, v) < |edges[k].hessian|
    ensures PairMapped(edges[k].ends, edges[k].hessian, StoreOf(solver), np, u, v)
    ensures forall q :: 0 <= q < |edges[k].hessian| && q != PairToIndex(u, v) ==> edges[k].hessian[q] == old(edges[k].hessian[q])
    ensures Mirrors(lookup', solver.Hpp.blockCols)
  {
    hide Present, Building, Grows, Mirrors, BlockAdded, JointlyTouched;
    var edge := edges[k];
    var i, j := edge.ends[u].value, edge.ends[v].value;
    lookup' := lookup;
    SizesWhileBuilding(solver, edges, np, n);
    if i < np && j < np {
      ghost var before := solver.Hpp.blockCols;
      PosesTouchedTogether(edges, k, u, v, np, n);
      AllocatePosePair(solver, Min(i, j), Max(i, j), np, n, edges);
      edge.MapHessianMemory(PosePart, Min(i, j), Max(i, j), u, v, i > j);
      MirrorsStill(lookup, before, solver.Hpp.blockCols, Min(i, j), Max(i, j));
      MirrorsLength(lookup, before);
      lookup' := AddBlock(lookup, Min(i, j), Max(i, j));
    } else if i >= np {
      TouchedTogether(edges, k, v, u, j, i);
      AllocateCross(solver, j, i - np, np, n, edges);
      edge.MapHessianMemory(CrossPart, j, i - np, u, v, true);
    } else {
      TouchedTogether(edges, k, u, v, i, j);
      AllocateCross(solver, i, j - np, np, n, edges);
      edge.MapHessianMemory(CrossPart, i, j - np, u, v, false);
    }
  }

  lemma PosesTouchedTogether(edges: seq<Edge>, k: nat, u: nat, v: nat, np: nat, n: nat)
    requires k < |edges| && u < v < |edges[k].ends| && Supported(edges[k].ends, np, n)
    requires edges[k].ends[u].Some? && edges[k].ends[v].Some?
    ensures var i, j := edges[k].ends[u].value, edges[k].ends[v].value;
            Min(i, j) < Max(i, j) && JointlyTouched(edges, Min(i, j), Max(i, j))
  {
    TouchedTogether(edges, k, u, v, edges[k].ends[u].value, edges[k].ends[v].value);
    TouchedTogether(edges, k, v, u, edges[k].ends[v].value, edges[k].ends[u].value);
  }

  lemma SizesWhileBuilding(solver: BlockSolver, edges: seq<Edge>, np: nat, n: nat)
    requires Building(solver, edges, np, n)
    ensures |solver.Hpp.blockCols| == np && solver.Hpp != solver.Hpl
  {
  }

  lemma MirrorsLength(lookup: seq<set<nat>>, hpp: BlockColumns)
    requires Mirrors(lookup, hpp)
    ensures |lookup| == |hpp|
  {
  }

  lemma TouchedTogether(edges: seq<Edge>, k: nat, u: nat, v: nat, i: nat, j: nat)
    requires k < |edges| && u < |edges[k].ends| && v < |edges[k].ends|
    requires edges[k].ends[u] == Some(i) && edges[k].ends[v] == Some(j)
    ensures JointlyTouched(edges, i, j)
  {
    assert Touches(edges[k].ends, i) && Touches(edges[k].ends, j);
  }

  /** The pairs of slots before (u, v) are mapped. */
  ghost predicate MappedUpTo(ends: seq<Option<nat>>, hessian: seq<Pointer>, st: Store, np: nat, u: nat, v: nat) {
    forall u': nat, v': nat :: u' < v' < |ends| && Before(u', v', u, v) ==> PairMapped(ends, hessian, st, np, u', v')
  }

  /** A new pointer and more blocks disturb no other pair. */
  lemma OthersStayMapped(ends: seq<Option<nat>>, hessian: seq<Pointer>, hessian': seq<Pointer>, st: Store, st': Store,
                         np: nat, u: nat, v: nat)
    requires MappedUpTo(ends, hessian, st, np, u, v) && u < v < |ends| && Grows(st, st', np) && |hessian'| == |hessian|
    requires forall q :: 0 <= q < |hessian| && q != PairToIndex(u, v) ==> hessian'[q] == hessian[q]
    requires PairMapped(ends, hessian', st', np, u, v)
    ensures MappedUpTo(ends, hessian', st', np, u, v + 1)
  {
    hide Present;
    forall u': nat, v': nat | u' < v' < |ends| && Before(u', v', u, v + 1) ensures PairMapped(ends, hessian', st', np, u', v') {
      if (u', v') != (u, v) {
        assert PairMapped(ends, hessian, st, np, u', v');
        if PairToIndex(u', v') == PairToIndex(u, v) {
          PairsApart(u', v', u, v);
        }
      }
    }
  }

  lemma FixedStaysMapped(ends: seq<Option<nat>>, hessian: seq<Pointer>, st: Store, np: nat, u: nat, v: nat)
    requires MappedUpTo(ends, hessian, st, np, u, v) && u < v < |ends| && (ends[u] == None || ends[v] == None)
    ensures MappedUpTo(ends, hessian, st, np, u, v + 1)
  {
    hide Present;
    forall u': nat, v': nat | u' < v' < |ends| && Before(u', v', u, v + 1) ensures PairMapped(ends, hessian, st, np, u', v') {
      assert (u', v') != (u, v) ==> PairMapped(ends, hessian, st, np, u', v');
    }
  }

  lemma NextRowMapped(ends: seq<Option<nat>>, hessian: seq<Pointer>, st: Store, np: nat, u: nat)
    requires MappedUpTo(ends, hessian, st, np, u, |ends|)
    ensures MappedUpTo(ends, hessian, st, np, u + 1, u + 2)
  {
    hide Present;
    forall u': nat, v': nat | u' < v' < |ends| && Before(u', v', u + 1, u + 2) ensures PairMapped(ends, hessian, st, np, u', v') {
      assert Before(u', v', u, |ends|);
    }
  }

  /** All pairs of free vertices of one edge. */
  method MapEdge(solver: BlockSolver, edges: seq<Edge>, k: nat, np: nat, ghost n: nat, lookup: seq<set<nat>>)
    returns (lookup': seq<set<nat>>)
    requires Building(solver, edges, np, n) && k < |edges| && Supported(edges[k].ends, np, n)
    requires |edges[k].hessian| == Triangle(|edges[k].ends|) && Mirrors(lookup, solver.Hpp.blockCols)
    modifies solver.Hpp, solver.Hpl, edges[k]
    ensures Building(solver, edges, np, n) && Grows(old(StoreOf(solver)), StoreOf(solver), np)
    ensures |edges[k].hessian| == |old(edges[k].hessian)|
    ensures EdgeMapped(edges[k].ends, edges[k].hessian, StoreOf(solver), np)
    ensures Mirrors(lookup', solver.Hpp.blockCols)
  {
    hide Building, Grows, MappedUpTo, StoreOf, Supported, Mirrors;
    var ends := edges[k].ends;
    ghost var st := StoreOf(solver);
    lookup' := lookup;
    NothingMapped(ends, edges[k].hessian, st, np);
    GrowsItself(st, np);
    for u := 0 to |ends|
      invariant Building(solver, edges, np, n) && Grows(st, StoreOf(solver), np)
      invariant |edges[k].hessian| == Triangle(|ends|) && Mirrors(lookup', solver.Hpp.blockCols)
      invariant MappedUpTo(ends, edges[k].hessian, StoreOf(solver), np, u, u + 1)
    {
      lookup' := MapRow(solver, edges, k, np, u, n, lookup', st);
    }
    AllMapped(ends, edges[k].hessian, StoreOf(solver), np);
  }

  lemma NothingMapped(ends: seq<Option<nat>>, hessian: seq<Pointer>, st: Store, np: nat)
    ensures MappedUpTo(ends, hessian, st, np, 0, 1)
  {
    hide Present;
  }

  lemma GrowsItself(st: Store, np: nat)
    ensures Grows(st, st, np)
  {
  }

  lemma AllMapped(ends: seq<Option<nat>>, hessian: seq<Pointer>, st: Store, np: nat)
    requires MappedUpTo(ends, hessian, st, np, |ends|, |ends| + 1)
    ensures EdgeMapped(ends, hessian, st, np)
  {
    hide Present;
    forall u: nat, v: nat | u < v < |ends| ensures PairMapped(ends, hessian, st, np, u, v) {
      assert Before(u, v, |ends|, |ends| + 1);
    }
  }

  method MapRow(solver: BlockSolver, edges: seq<Edge>, k: nat, np: nat, u: nat, ghost n: nat, lookup: seq<set<nat>>,
                ghost st: Store)
    returns (lookup': seq<set<nat>>)
    requires Building(solver, edges, np, n) && k < |edges| && Supported(edges[k].ends, np, n)
    requires |edges[k].hessian| == Triangle(|edges[k].ends|) && Mirrors(lookup, solver.Hpp.blockCols)
    requires u < |edges[k].ends| && Grows(st, StoreOf(solver), np)
    requires MappedUpTo(edges[k].ends, edges[k].hessian, StoreOf(solver), np, u, u + 1)
    modifies solver.Hpp, solver.Hpl, edges[k]
    ensures Building(solver, edges, np, n) && Grows(st, StoreOf(solver), np)
    ensures |edges[k].hessian| == |old(edges[k].hessian)| && Mirrors(lookup', solver.Hpp.blockCols)
    ensures MappedUpTo(edges[k].ends, edges[k].hessian, StoreOf(solver), np, u + 1, u + 2)
  {
    hide Building, Grows, MappedUpTo, StoreOf, Supported, Mirrors, PairMapped;
    var ends := edges[k].ends;
    lookup' := lookup;
    for v := u + 1 to |ends|
      invariant Building(solver, edges, np, n) && Grows(st, StoreOf(solver), np)
      invariant |edges[k].hessian| == Triangle(|ends|) && Mirrors(lookup', solver.Hpp.blockCols)
      invariant MappedUpTo(ends, edges[k].hessian, StoreOf(solver), np, u, v)
    {
      ghost var before, mid := edges[k].hessian, StoreOf(solver);
      if ends[u].Some? && ends[v].Some? {
        lookup' := MapPair(solver, edges, k, np, u, v, n, lookup');
        OthersStayMapped(ends, before, edges[k].hessian, mid, StoreOf(solver), np, u, v);
        GrowthChains(st, mid, StoreOf(solver), np);
      } else {
        FixedStaysMapped(ends, before, mid, np, u, v);
      }
    }
    NextRowMapped(ends, edges[k].hessian, StoreOf(solver), np, u);
  }

  ghost predicate DistinctEdges(edges: seq<Edge>) {
    forall i, j :: 0 <= i < j < |edges| ==> edges[i] != edges[j]
  }

  /** The first k edges know their blocks. */
  ghost predicate EdgesMapped(edges: seq<Edge>, k: nat, st: Store, np: nat)
    requires k <= |edges|
    reads edges
  {
    forall i :: 0 <= i < k ==> EdgeMapped(edges[i].ends, edges[i].hessian, st, np)
  }

  ghost predicate Fresh(edges: seq<Edge>, np: nat, n: nat)
    reads edges
  {
    forall k :: 0 <= k < |edges| ==>
      edges[k].Valid() && Supported(edges[k].ends, np, n) && |edges[k].hessian| == Triangle(|edges[k].ends|)
  }

  method MapEdges(solver: BlockSolver, edges: seq<Edge>, np: nat, ghost n: nat) returns (lookup: seq<set<nat>>)
    requires Building(solver, edges, np, n) && DistinctEdges(edges) && Fresh(edges, np, n)
    requires forall c, r: nat :: 0 <= c < np ==> (r in solver.Hpp.blockCols[c] <==> r == c)
    modifies solver.Hpp, solver.Hpl, edges
    ensures Building(solver, edges, np, n) && Fresh(edges, np, n) && EdgesMapped(edges, |edges|, StoreOf(solver), np)
    ensures Mirrors(lookup, solver.Hpp.blockCols)
  {
    SizesWhileBuilding(solver, edges, np, n);
    lookup := seq(np, _ => {});
    assert Mirrors(lookup, solver.Hpp.blockCols);
    hide Building, StoreOf, Grows, Supported, EdgeMapped, Mirrors;
    for k := 0 to |edges|
      invariant Building(solver, edges, np, n) && Fresh(edges, np, n)
      invariant EdgesMapped(edges, k, StoreOf(solver), np) && Mirrors(lookup, solver.Hpp.blockCols)
    {
      ghost var st := StoreOf(solver);
      lookup := MapEdge(solver, edges, k, np, n, lookup);
      forall i | 0 <= i < k ensures EdgeMapped(edges[i].ends, edges[i].hessian, StoreOf(solver), np) {
        KeepsMapped(edges[i].ends, edges[i].hessian, st, StoreOf(solver), np);
      }
    }
  }

  // ----- The pattern of the Schur matrix

  ghost predicate InRange(lookup: seq<set<nat>>, np: nat) {
    forall c, r :: 0 <= c < |lookup| && r in lookup[c] ==> r < np
  }

  method AddBlock(lookup: seq<set<nat>>, r: nat, c: nat) returns (lookup': seq<set<nat>>)
    requires c < |lookup|
    ensures lookup' == lookup[c := lookup[c] + {r}]
  {
    lookup' := lookup[c := lookup[c] + {r}];
  }

  /** i is a vertex other than me at one of the first k edges, or at one of the first s slots of the next edge. */
  ghost predicate Seen(es: seq<Edge>, me: nat, i: nat, k: nat, s: nat) {
    i != me && exists q, t :: SeenAt(es, i, q, t) && (q < k || (q == k && t < s))
  }

  ghost predicate SeenAt(es: seq<Edge>, i: nat, q: int, t: int) {
    0 <= q < |es| && 0 <= t < |es[q].ends| && es[q].ends[t] == Some(i)
  }

  lemma SeenStep(es: seq<Edge>, me: nat, i: nat, k: nat, s: nat)
    requires k < |es| && s < |es[k].ends|
    ensures Seen(es, me, i, k, s + 1) <==> Seen(es, me, i, k, s) || (es[k].ends[s] == Some(i) && i != me)
  {
    if Seen(es, me, i, k, s + 1) {
      var q, t :| SeenAt(es, i, q, t) && (q < k || (q == k && t < s + 1));
    }
    if es[k].ends[s] == Some(i) {
      assert SeenAt(es, i, k, s);
    }
  }

  lemma SeenNext(es: seq<Edge>, me: nat, i: nat, k: nat)
    requires k < |es|
    ensures Seen(es, me, i, k + 1, 0) <==> Seen(es, me, i, k, |es[k].ends|)
  {
  }

  /** The edges of landmark l all touch it, and are of a supported kind. */
  ghost predicate LandmarkEdges(es: seq<Edge>, np: nat, n: nat, me: nat) {
    np <= me < n && forall k :: 0 <= k < |es| ==> Supported(es[k].ends, np, n) && Touches(es[k].ends, me)
  }

  /** Whatever shares an edge with a landmark is a pose. */
  lemma OthersArePoses(es: seq<Edge>, np: nat, n: nat, me: nat, k: nat, s: nat)
    requires LandmarkEdges(es, np, n, me) && k < |es| && s < |es[k].ends|
    requires es[k].ends[s].Some? && es[k].ends[s].value != me
    ensures es[k].ends[s].value < np
  {
    var ends := es[k].ends;
    var t :| 0 <= t < |ends| && ends[t] == Some(me);
    assert t < s || s < t;
  }

  /** Row i1 is in the columns of all poses seen so far that do not come before it. */
  ghost predicate RowListed(lookup: seq<set<nat>>, es: seq<Edge>, me: nat, i1: nat, k: nat, s: nat) {
    forall i2: nat :: Seen(es, me, i2, k, s) && i1 <= i2 < |lookup| ==> i1 in lookup[i2]
  }

  ghost predicate NothingLost(lookup: seq<set<nat>>, lookup': seq<set<nat>>) {
    |lookup'| == |lookup| && forall c :: 0 <= c < |lookup| ==> lookup[c] <= lookup'[c]
  }

  /** What was added are pairs of poses that the landmark sees. */
  ghost predicate OnlySeen(lookup: seq<set<nat>>, lookup': seq<set<nat>>, es: seq<Edge>, me: nat) {
    && |lookup'| == |lookup|
    && forall c: nat, r: nat :: c < |lookup| && r in lookup'[c] ==> r in lookup[c] || SeenPair(es, me, r, c)
  }

  /** The landmark sees both poses, which come in this order. */
  ghost predicate SeenPair(es: seq<Edge>, me: nat, r: nat, c: nat) {
    r <= c && Seen(es, me, r, |es|, 0) && Seen(es, me, c, |es|, 0)
  }

  lemma SeenHere(es: seq<Edge>, me: nat, k: nat, s: nat)
    requires k < |es| && s < |es[k].ends| && es[k].ends[s].Some? && es[k].ends[s].value != me
    ensures Seen(es, me, es[k].ends[s].value, |es|, 0)
  {
    assert SeenAt(es, es[k].ends[s].value, k, s);
  }

  /** All pairs of one pose with the poses its landmark sees. */
  method AddPartners(es: seq<Edge>, np: nat, me: nat, i1: nat, lookup: seq<set<nat>>, ghost n: nat)
    returns (lookup': seq<set<nat>>)
    requires LandmarkEdges(es, np, n, me) && |lookup| == np && i1 < np && InRange(lookup, np) && Seen(es, me, i1, |es|, 0)
    ensures NothingLost(lookup, lookup') && InRange(lookup', np) && OnlySeen(lookup, lookup', es, me)
    ensures RowListed(lookup', es, me, i1, |es|, 0)
  {
    hide Seen;
    lookup' := lookup;
    NothingSeen(lookup, es, me, i1);
    for k := 0 to |es|
      invariant NothingLost(lookup, lookup') && InRange(lookup', np) && RowListed(lookup', es, me, i1, k, 0)
      invariant OnlySeen(lookup, lookup', es, me)
    {
      var ends := es[k].ends;
      for s := 0 to |ends|
        invariant NothingLost(lookup, lookup') && InRange(lookup', np) && RowListed(lookup', es, me, i1, k, s)
        invariant OnlySeen(lookup, lookup', es, me)
      {
        ghost var before := lookup';
        if ends[s].Some? && ends[s].value != me {
          OthersArePoses(es, np, n, me, k, s);
          SeenHere(es, me, k, s);
          if i1 <= ends[s].value {
            lookup' := AddBlock(lookup', i1, ends[s].value);
          }
        }
        forall i2: nat | Seen(es, me, i2, k, s + 1) && i1 <= i2 < |lookup'| ensures i1 in lookup'[i2] {
          SeenStep(es, me, i2, k, s);
        }
      }
      forall i2: nat | Seen(es, me, i2, k + 1, 0) && i1 <= i2 < |lookup'| ensures i1 in lookup'[i2] {
        SeenNext(es, me, i2, k);
      }
    }
  }

  lemma NothingSeen(lookup: seq<set<nat>>, es: seq<Edge>, me: nat, i1: nat)
    ensures RowListed(lookup, es, me, i1, 0, 0) && PairsListed(lookup, es, me, 0, 0)
  {
    forall i: nat ensures !Seen(es, me, i, 0, 0) {
    }
  }

  lemma OnlySeenChains(lookup: seq<set<nat>>, mid: seq<set<nat>>, lookup': seq<set<nat>>, es: seq<Edge>, me: nat)
    requires OnlySeen(lookup, mid, es, me) && OnlySeen(mid, lookup', es, me)
    ensures OnlySeen(lookup, lookup', es, me)
  {
    hide SeenPair;
  }

  /** Every pair of poses seen by the landmark, the first among those seen so far. */
  ghost predicate PairsListed(lookup: seq<set<nat>>, es: seq<Edge>, me: nat, k: nat, s: nat) {
    forall i1: nat :: Seen(es, me, i1, k, s) ==> RowListed(lookup, es, me, i1, |es|, 0)
  }

  lemma KeepsRows(lookup: seq<set<nat>>, lookup': seq<set<nat>>, es: seq<Edge>, me: nat)
    requires NothingLost(lookup, lookup')
    ensures forall i1: nat :: RowListed(lookup, es, me, i1, |es|, 0) ==> RowListed(lookup', es, me, i1, |es|, 0)
  {
    hide Seen;
  }

  method AddLandmark(es: seq<Edge>, np: nat, me: nat, lookup: seq<set<nat>>, ghost n: nat) returns (lookup': seq<set<nat>>)
    requires LandmarkEdges(es, np, n, me) && |lookup| == np && InRange(lookup, np)
    ensures NothingLost(lookup, lookup') && InRange(lookup', np) && PairsListed(lookup', es, me, |es|, 0)
    ensures OnlySeen(lookup, lookup', es, me)
  {
    hide RowListed, Seen;
    lookup' := lookup;
    NothingSeen(lookup, es, me, 0);
    for k := 0 to |es|
      invariant NothingLost(lookup, lookup') && InRange(lookup', np) && PairsListed(lookup', es, me, k, 0)
      invariant OnlySeen(lookup, lookup', es, me)
    {
      var ends := es[k].ends;
      for s := 0 to |ends|
        invariant NothingLost(lookup, lookup') && InRange(lookup', np) && PairsListed(lookup', es, me, k, s)
        invariant OnlySeen(lookup, lookup', es, me)
      {
        ghost var before := lookup';
        if ends[s].Some? && ends[s].value != me {
          OthersArePoses(es, np, n, me, k, s);
          SeenHere(es, me, k, s);
          lookup' := AddPartners(es, np, me, ends[s].value, lookup', n);
          KeepsRows(before, lookup', es, me);
          OnlySeenChains(lookup, before, lookup', es, me);
        }
        forall i1: nat | Seen(es, me, i1, k, s + 1) ensures RowListed(lookup', es, me, i1, |es|, 0) {
          SeenStep(es, me, i1, k, s);
        }
      }
      forall i1: nat | Seen(es, me, i1, k + 1, 0) ensures RowListed(lookup', es, me, i1, |es|, 0) {
        SeenNext(es, me, i1, k);
      }
    }
  }

  /** The blocks there were, and those of the pattern in the columns before c and in column c before row r. */
  ghost predicate Taken(lookup: seq<set<nat>>, before: BlockColumns, after: BlockColumns, c: nat, r: nat) {
    |after| == |before| == |lookup| && forall c': nat, r': nat :: c' < |before| ==>
      (r' in after[c'] <==> r' in before[c'] || (r' in lookup[c'] && (c' < c || (c' == c && r' < r))))
  }

  /** Moves the collected pattern into the matrix, column by column in ascending order. */
  method TakePatternFromHash(matrix: SparseBlockMatrix, lookup: seq<set<nat>>)
    requires matrix.Valid() && |lookup| == |matrix.colBlockIndices| && InRange(lookup, |matrix.rowBlockIndices|)
    modifies matrix
    ensures matrix.Valid() && Taken(lookup, old(matrix.blockCols), matrix.blockCols, |lookup|, 0)
  {
    for c := 0 to |lookup|
      invariant matrix.Valid() && Taken(lookup, old(matrix.blockCols), matrix.blockCols, c, 0)
    {
      for r := 0 to |matrix.rowBlockIndices|
        invariant matrix.Valid() && Taken(lookup, old(matrix.blockCols), matrix.blockCols, c, r)
      {
        if r in lookup[c] {
          var _ := matrix.Block(r, c, true);
        }
      }
    }
  }

  /** The edges of every landmark include all active edges that touch it. */
  ghost predicate Incident(edges: seq<Edge>, incident: seq<seq<Edge>>, np: nat, n: nat) {
    && np <= n && |incident| == n - np
    && (forall l :: 0 <= l < |incident| ==> LandmarkEdges(incident[l], np, n, np + l))
    && forall l, k :: 0 <= l < |incident| && 0 <= k < |edges| && Touches(edges[k].ends, np + l) ==> edges[k] in incident[l]
  }

  ghost predicate LandmarksListed(lookup: seq<set<nat>>, incident: seq<seq<Edge>>, np: nat, count: nat)
    requires count <= |incident|
  {
    forall l :: 0 <= l < count ==> PairsListed(lookup, incident[l], np + l, |incident[l]|, 0)
  }

  lemma KeepsPairs(lookup: seq<set<nat>>, lookup': seq<set<nat>>, es: seq<Edge>, me: nat)
    requires NothingLost(lookup, lookup') && PairsListed(lookup, es, me, |es|, 0)
    ensures PairsListed(lookup', es, me, |es|, 0)
  {
    hide Seen, RowListed, NothingLost;
    KeepsRows(lookup, lookup', es, me);
  }

  /** Some landmark sees both poses. */
  ghost predicate ShareLandmark(incident: seq<seq<Edge>>, np: nat, r: nat, c: nat) {
    exists l: nat :: l < |incident| && SeenPair(incident[l], np + l, r, c)
  }

  /** What was added are pairs of poses that share a landmark. */
  ghost predicate OnlyShared(lookup: seq<set<nat>>, lookup': seq<set<nat>>, incident: seq<seq<Edge>>, np: nat) {
    && |lookup'| == |lookup|
    && forall c: nat, r: nat :: c < |lookup| && r in lookup'[c] ==> r in lookup[c] || ShareLandmark(incident, np, r, c)
  }

  lemma SharesNothingYet(lookup: seq<set<nat>>, incident: seq<seq<Edge>>, np: nat)
    ensures OnlyShared(lookup, lookup, incident, np)
  {
  }

  lemma SharesOneMore(lookup: seq<set<nat>>, mid: seq<set<nat>>, lookup': seq<set<nat>>, incident: seq<seq<Edge>>, np: nat, l: nat)
    requires OnlyShared(lookup, mid, incident, np) && l < |incident| && OnlySeen(mid, lookup', incident[l], np + l)
    ensures OnlyShared(lookup, lookup', incident, np)
  {
    hide SeenPair;
  }

  method AddLandmarks(incident: seq<seq<Edge>>, np: nat, lookup: seq<set<nat>>, ghost n: nat, ghost edges: seq<Edge>)
    returns (lookup': seq<set<nat>>)
    requires Incident(edges, incident, np, n) && |lookup| == np && InRange(lookup, np)
    ensures |lookup'| == np && InRange(lookup', np) && LandmarksListed(lookup', incident, np, |incident|)
    ensures NothingLost(lookup, lookup') && OnlyShared(lookup, lookup', incident, np)
  {
    hide PairsListed, InRange, LandmarkEdges, OnlySeen, OnlyShared;
    lookup' := lookup;
    SharesNothingYet(lookup, incident, np);
    for l := 0 to |incident|
      invariant |lookup'| == np && InRange(lookup', np) && LandmarksListed(lookup', incident, np, l)
      invariant NothingLost(lookup, lookup') && OnlyShared(lookup, lookup', incident, np)
    {
      ghost var before := lookup';
      lookup' := AddLandmark(incident[l], np, np + l, lookup', n);
      SharesOneMore(lookup, before, lookup', incident, np, l);
      forall k | 0 <= k < l ensures PairsListed(lookup', incident[k], np + k, |incident[k]|, 0) {
        KeepsPairs(before, lookup', incident[k], np + k);
      }
    }
  }

  /** A pose with a block in a landmark's column is seen by the landmark. */
  lemma BlockIsSeen(edges: seq<Edge>, incident: seq<seq<Edge>>, np: nat, n: nat, l: nat, r: nat)
    requires Incident(edges, incident, np, n) && l < |incident| && JointlyTouched(edges, r, np + l) && r < np
    ensures Seen(incident[l], np + l, r, |incident[l]|, 0)
  {
    var k :| 0 <= k < |edges| && Touches(edges[k].ends, r) && Touches(edges[k].ends, np + l);
    var es := incident[l];
    assert edges[k] in es;
    var q :| 0 <= q < |es| && es[q] == edges[k];
    var t :| 0 <= t < |edges[k].ends| && edges[k].ends[t] == Some(r);
    assert SeenAt(es, r, q, t);
  }

  /** The pattern has a block for every two poses that a landmark's column holds. */
  lemma PatternIsComplete(edges: seq<Edge>, incident: seq<seq<Edge>>, np: nat, n: nat, hpl: BlockColumns,
                          lookup: seq<set<nat>>, schur: BlockColumns, view: seq<Column>)
    requires Incident(edges, incident, np, n) && Witnessed(hpl, edges, np) && |hpl| == n - np
    requires forall l, r: nat :: 0 <= l < |hpl| && r in hpl[l] ==> r < np
    requires |lookup| == np && LandmarksListed(lookup, incident, np, |incident|) && |schur| == np
    requires forall c: nat, r: nat :: c < np && r in lookup[c] ==> r in schur[c]
    requires |view| == np && CompleteTransposedView(view, schur)
    ensures PatternComplete(view, hpl)
  {
    hide Seen, LandmarkEdges, JointlyTouched;
    forall l, r1: nat, r2: nat | 0 <= l < |hpl| && r1 in hpl[l] && r2 in hpl[l] && r1 <= r2 && r1 < |view|
      ensures HasRow(view[r1], r2)
    {
      BlockIsSeen(edges, incident, np, n, l, r1);
      BlockIsSeen(edges, incident, np, n, l, r2);
      assert PairsListed(lookup, incident[l], np + l, |incident[l]|, 0);
      assert r1 in lookup[r2];
    }
  }

  // ----- Exactly which blocks there are

  /** Pose blocks: the diagonal and one block for every two poses that an edge joins. */
  ghost predicate PosePattern(hpp: BlockColumns, edges: seq<Edge>) {
    forall c: nat, r: nat :: c < |hpp| ==> (r in hpp[c] <==> r == c || (r < c && JointlyTouched(edges, r, c)))
  }

  /** Pose-landmark blocks: one for every pose and landmark that an edge joins. */
  ghost predicate CrossPattern(hpl: BlockColumns, edges: seq<Edge>, np: nat) {
    forall l: nat, r: nat :: l < |hpl| ==> (r in hpl[l] <==> r < np && JointlyTouched(edges, r, np + l))
  }

  /** Blocks of the Schur matrix: one for every two poses that an edge joins or a landmark sees. */
  ghost predicate SchurPattern(schur: BlockColumns, edges: seq<Edge>, incident: seq<seq<Edge>>, np: nat) {
    forall c: nat, r: nat :: c < |schur| ==>
      (r in schur[c] <==> (r < c && JointlyTouched(edges, r, c)) || ShareLandmark(incident, np, r, c))
  }

  /** An edge that touches two vertices has slots for them, in some order. */
  lemma SlotsOfPair(edges: seq<Edge>, i: nat, j: nat) returns (k: nat, u: nat, v: nat)
    requires JointlyTouched(edges, i, j) && i != j
    ensures k < |edges| && u < v < |edges[k].ends|
    ensures (edges[k].ends[u], edges[k].ends[v]) == (Some(i), Some(j)) || (edges[k].ends[u], edges[k].ends[v]) == (Some(j), Some(i))
  {
    k :| k < |edges| && Touches(edges[k].ends, i) && Touches(edges[k].ends, j);
    u :| u < |edges[k].ends| && edges[k].ends[u] == Some(i);
    v :| v < |edges[k].ends| && edges[k].ends[v] == Some(j);
    if v < u {
      u, v := v, u;
    }
  }

  /** The blocks of mapped edges are there. */
  lemma JoinedIsPresent(edges: seq<Edge>, st: Store, np: nat, i: nat, j: nat)
    requires EdgesMapped(edges, |edges|, st, np) && JointlyTouched(edges, i, j) && i < j
    ensures Present(st, np, i, j)
  {
    hide Present, JointlyTouched, Expected;
    var k, u, v := SlotsOfPair(edges, i, j);
    assert EdgeMapped(edges[k].ends, edges[k].hessian, st, np);
    assert PairMapped(edges[k].ends, edges[k].hessian, st, np, u, v);
  }

  lemma PatternsExact(edges: seq<Edge>, st: Store, np: nat)
    requires EdgesMapped(edges, |edges|, st, np) && |st.hpp| == np && Witnessed(st.hpl, edges, np) && PoseWitnessed(st.hpp, edges)
    requires (forall l, r: nat :: 0 <= l < |st.hpl| && r in st.hpl[l] ==> r < np) && forall c: nat :: c < np ==> c in st.hpp[c]
    ensures PosePattern(st.hpp, edges) && CrossPattern(st.hpl, edges, np)
  {
    hide EdgesMapped, JointlyTouched;
    forall c: nat, r: nat | c < np && r < c && JointlyTouched(edges, r, c) ensures r in st.hpp[c] {
      JoinedIsPresent(edges, st, np, r, c);
    }
    forall l: nat, r: nat | l < |st.hpl| && r < np && JointlyTouched(edges, r, np + l) ensures r in st.hpl[l] {
      JoinedIsPresent(edges, st, np, r, np + l);
    }
  }

  lemma SchurPatternExact(edges: seq<Edge>, incident: seq<seq<Edge>>, np: nat, hpp: BlockColumns, lookup: seq<set<nat>>,
                          lookup': seq<set<nat>>, empty: BlockColumns, schur: BlockColumns)
    requires PosePattern(hpp, edges) && Mirrors(lookup, hpp) && |hpp| == np && EmptyColumns(empty)
    requires NothingLost(lookup, lookup') && OnlyShared(lookup, lookup', incident, np)
    requires LandmarksListed(lookup', incident, np, |incident|) && Taken(lookup', empty, schur, |lookup'|, 0)
    ensures SchurPattern(schur, edges, incident, np)
  {
    hide JointlyTouched, ShareLandmark;
    forall c: nat, r: nat | c < np && ShareLandmark(incident, np, r, c) ensures r in lookup'[c] {
      SharedIsListed(incident, np, lookup', r, c);
    }
  }

  lemma SharedIsListed(incident: seq<seq<Edge>>, np: nat, lookup: seq<set<nat>>, r: nat, c: nat)
    requires ShareLandmark(incident, np, r, c) && c < |lookup| && LandmarksListed(lookup, incident, np, |incident|)
    ensures r in lookup[c]
  {
    hide Seen;
    var l: nat :| l < |incident| && SeenPair(incident[l], np + l, r, c);
    assert PairsListed(lookup, incident[l], np + l, |incident[l]|, 0);
    assert RowListed(lookup, incident[l], np + l, r, |incident[l]|, 0);
  }

  /** The blocks of the pose, pose-landmark and landmark parts, and the pointers to them. */
  method BuildParts(solver: BlockSolver, edges: seq<Edge>, np: nat, n: nat) returns (lookup: seq<set<nat>>)
    requires solver.Shapes() && |solver.Hpp.rowBlockIndices| == np <= n && |solver.Hll.colBlockIndices| == n - np
    requires EmptyColumns(solver.Hpp.blockCols) && EmptyColumns(solver.Hpl.blockCols) && EmptyColumns(solver.Hll.blockCols)
    requires solver.Hpp.hasStorage && solver.Hpl.hasStorage && solver.Hll.hasStorage
    requires DistinctEdges(edges) && Fresh(edges, np, n)
    modifies solver.Hpp, solver.Hpl, solver.Hll, edges
    ensures Building(solver, edges, np, n) && Structured(edges, StoreOf(solver), np, n)
    ensures PosePattern(solver.Hpp.blockCols, edges) && CrossPattern(solver.Hpl.blockCols, edges, np)
    ensures Mirrors(lookup, solver.Hpp.blockCols)
  {
    hide EdgesMapped, PosePattern, CrossPattern, Mirrors, Fresh, Structured, JointlyTouched, DiagonalPresent;
    AllocateDiagonals(solver, np, n, edges);
    lookup := MapEdges(solver, edges, np, n);
    PartsInRange(solver, edges, np, n);
    PatternsExact(edges, StoreOf(solver), np);
    StructureBuilt(solver, edges, np, n);
  }

  lemma PartsInRange(solver: BlockSolver, edges: seq<Edge>, np: nat, n: nat)
    requires Building(solver, edges, np, n)
    ensures forall l, r: nat :: 0 <= l < |solver.Hpl.blockCols| && r in solver.Hpl.blockCols[l] ==> r < np
    ensures |solver.Hpp.blockCols| == np && forall c: nat :: c < np ==> c in solver.Hpp.blockCols[c]
  {
    forall c: nat | c < np ensures c in solver.Hpp.blockCols[c] {
      assert Present(StoreOf(solver), np, c, c);
    }
  }

  /** The pattern of the Schur matrix, and its view. */
  method BuildSchur(solver: BlockSolver, ghost edges: seq<Edge>, incident: seq<seq<Edge>>, np: nat, ghost n: nat,
                    edgePairs: seq<set<nat>>)
    requires Building(solver, edges, np, n) && EmptyColumns(solver.Hschur.blockCols) && Incident(edges, incident, np, n)
    requires PosePattern(solver.Hpp.blockCols, edges) && Mirrors(edgePairs, solver.Hpp.blockCols)
    modifies solver.Hschur, solver`HschurTransposedCCS
    ensures solver.Shapes() && SchurPattern(solver.Hschur.blockCols, edges, incident, np)
    ensures IsTransposedView(solver.HschurTransposedCCS, solver.Hschur.blockCols)
    ensures |solver.HschurTransposedCCS| == np && PatternComplete(solver.HschurTransposedCCS, solver.Hpl.blockCols)
  {
    hide PosePattern, SchurPattern, Mirrors, OnlyShared, LandmarksListed, PoseWitnessed, Incident, Witnessed, DiagonalPresent;
    hide PatternComplete, EmptyColumns, NothingLost;
    ghost var empty := solver.Hschur.blockCols;
    MirrorInRange(edgePairs, solver.Hpp.blockCols, np);
    var lookup := AddLandmarks(incident, np, edgePairs, n, edges);
    TakePatternFromHash(solver.Hschur, lookup);
    SchurPatternExact(edges, incident, np, solver.Hpp.blockCols, edgePairs, lookup, empty, solver.Hschur.blockCols);
    var blocks;
    solver.HschurTransposedCCS, blocks := FillSparseBlockMatrixCCSTransposed(solver.Hschur);
    PatternIsComplete(edges, incident, np, n, solver.Hpl.blockCols, lookup, solver.Hschur.blockCols, solver.HschurTransposedCCS);
  }

  /** The whole structure: blocks, pointers, views and the Schur pattern; there are exactly the blocks that are needed. */
  method BuildStructure(solver: BlockSolver, edges: seq<Edge>, incident: seq<seq<Edge>>, np: nat, n: nat)
    requires solver.Shapes() && |solver.Hpp.rowBlockIndices| == np <= n && |solver.Hll.colBlockIndices| == n - np
    requires EmptyColumns(solver.Hpp.blockCols) && EmptyColumns(solver.Hpl.blockCols)
    requires EmptyColumns(solver.Hll.blockCols) && EmptyColumns(solver.Hschur.blockCols)
    requires solver.Hpp.hasStorage && solver.Hpl.hasStorage && solver.Hll.hasStorage
    requires DistinctEdges(edges) && Fresh(edges, np, n) && Incident(edges, incident, np, n)
    modifies solver.Hpp, solver.Hpl, solver.Hll, solver.Hschur, edges, solver`HplCCS, solver`HschurTransposedCCS, solver`DInvSchur
    ensures solver.Shapes() && solver.Views() && DiagonalOnly(solver.Hll.blockCols)
    ensures |solver.DInvSchur| == n - np && Structured(edges, StoreOf(solver), np, n)
    ensures PosePattern(solver.Hpp.blockCols, edges) && CrossPattern(solver.Hpl.blockCols, edges, np)
    ensures SchurPattern(solver.Hschur.blockCols, edges, incident, np)
  {
    hide PosePattern, CrossPattern, SchurPattern, Mirrors, PoseWitnessed, Fresh, Incident, Structured, Witnessed, PatternComplete;
    hide IsTransposedView, EmptyColumns, DiagonalPresent;
    var edgePairs := BuildParts(solver, edges, np, n);
    solver.DInvSchur := ZeroBlocks(n - np);
    var blocks;
    solver.HplCCS, blocks := FillSparseBlockMatrixCCS(solver.Hpl);
    BuildSchur(solver, edges, incident, np, n, edgePairs);
  }

  lemma MirrorInRange(lookup: seq<set<nat>>, hpp: BlockColumns, np: nat)
    requires Mirrors(lookup, hpp) && |hpp| == np && forall c, r :: 0 <= c < |hpp| && r in hpp[c] ==> r < np
    ensures |lookup| == np && InRange(lookup, np)
  {
  }

  lemma StructureBuilt(solver: BlockSolver, edges: seq<Edge>, np: nat, n: nat)
    requires EdgesMapped(edges, |edges|, StoreOf(solver), np) && DiagonalPresent(StoreOf(solver), np, n) && Fresh(edges, np, n)
    ensures Structured(edges, StoreOf(solver), np, n)
  {
    hide EdgeMapped, DiagonalPresent, Supported, Edge.Valid;
  }
}
