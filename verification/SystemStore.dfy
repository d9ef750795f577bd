/**
 The blocks of the normal equations as values: where the entry of a pair of vertices is stored, and how
 far the sum over the edges has progressed.
 */
module SystemStore {
  import opened Sums
  import opened LinearAlgebra
  import opened Options
  import opened SparseBlocks
  import opened QuadraticForms

  /** Pose blocks, pose-landmark blocks and landmark blocks. */
  datatype Store = Store(hpp: BlockColumns, hpl: BlockColumns, hll: BlockColumns)

  /** Entry (a, b) of the block for the vertices at positions i <= j; the first np positions are poses. */
  ghost function StoredEntry(st: Store, np: nat, i: nat, j: nat, a: int, b: int): real {
    if j < np then BlockEntry(st.hpp, i, j, a, b)
    else if i < np then BlockEntry(st.hpl, i, j - np, a, b)
    else BlockEntry(st.hll, i - np, j - np, a, b)
  }

  /** The block for the vertices at positions i <= j exists. */
  ghost predicate Present(st: Store, np: nat, i: nat, j: nat) {
    if j < np then j < |st.hpp| && i in st.hpp[j]
    else if i < np then j - np < |st.hpl| && i in st.hpl[j - np]
    else j - np < |st.hll| && i - np in st.hll[j - np]
  }

  ghost function AddToStore(st: Store, np: nat, i: nat, j: nat, M: Matrix): Store
    requires Present(st, np, i, j)
  {
    if j < np then st.(hpp := WithBlock(st.hpp, i, j, PlusMatrix(st.hpp[j][i], M)))
    else if i < np then st.(hpl := WithBlock(st.hpl, i, j - np, PlusMatrix(st.hpl[j - np][i], M)))
    else st.(hll := WithBlock(st.hll, i - np, j - np, PlusMatrix(st.hll[j - np][i - np], M)))
  }

  lemma StoredAfter(st: Store, np: nat, i: nat, j: nat, M: Matrix, i': nat, j': nat, a: int, b: int)
    requires Present(st, np, i, j) && i <= j && i' <= j'
    ensures StoredEntry(AddToStore(st, np, i, j, M), np, i', j', a, b)
         == StoredEntry(st, np, i', j', a, b) + if (i', j') == (i, j) then M(a, b) else 0.0
  {
  }

  lemma PresentAfter(st: Store, np: nat, i: nat, j: nat, M: Matrix)
    requires Present(st, np, i, j)
    ensures forall i': nat, j': nat :: Present(AddToStore(st, np, i, j, M), np, i', j') <==> Present(st, np, i', j')
  {
  }

  // ----- Progress of the sum

  ghost predicate CompleteEntry(st: Store, ms: seq<Measurement>, np: nat, k: nat, i: nat, j: nat, a: int, b: int) {
    StoredEntry(st, np, i, j, a, b) == Sum(0, k, BlockTerms(ms, i, j, a, b))
  }

  /** The first k edges are summed up. */
  ghost predicate Complete(st: Store, ms: seq<Measurement>, np: nat, k: nat) {
    forall i: nat, j: nat, a, b :: i <= j ==> CompleteEntry(st, ms, np, k, i, j, a, b)
  }

  ghost predicate Before(lo: nat, hi: nat, u: nat, v: nat) {
    lo < u || (lo == u && hi < v)
  }

  /** Both vertices belong to the edge, and their slots come before (u, v). */
  ghost predicate PairDone(ends: seq<Option<nat>>, i: nat, j: nat, u: nat, v: nat) {
    var s, t := SlotFrom(ends, i, 0), SlotFrom(ends, j, 0);
    s < |ends| && t < |ends| && if s <= t then Before(s, t, u, v) else Before(t, s, u, v)
  }

  ghost predicate PartialEntry(st: Store, ms: seq<Measurement>, np: nat, k: nat, u: nat, v: nat, i: nat, j: nat,
                               a: int, b: int)
    requires k < |ms|
  {
    StoredEntry(st, np, i, j, a, b)
    == Sum(0, k, BlockTerms(ms, i, j, a, b)) + if PairDone(ms[k].ends, i, j, u, v) then PairTerm(ms[k], i, j)(a, b) else 0.0
  }

  /** The first k edges are summed up, and the pairs of slots before (u, v) of the next one. */
  ghost predicate Partial(st: Store, ms: seq<Measurement>, np: nat, k: nat, u: nat, v: nat)
    requires k < |ms|
  {
    forall i: nat, j: nat, a, b :: i <= j ==> PartialEntry(st, ms, np, k, u, v, i, j, a, b)
  }

  lemma StartEdge(st: Store, ms: seq<Measurement>, np: nat, k: nat)
    requires k < |ms| && Complete(st, ms, np, k)
    ensures Partial(st, ms, np, k, 0, 0)
  {
    hide StoredEntry, PairTerm, BlockTerms, Sum;
    forall i: nat, j: nat, a, b | i <= j ensures PartialEntry(st, ms, np, k, 0, 0, i, j, a, b) {
      assert CompleteEntry(st, ms, np, k, i, j, a, b);
    }
  }

  lemma FinishEdge(st: Store, ms: seq<Measurement>, np: nat, k: nat)
    requires k < |ms| && Partial(st, ms, np, k, |ms[k].ends|, |ms[k].ends|)
    ensures Complete(st, ms, np, k + 1)
  {
    hide StoredEntry, PairTerm;
    var n := |ms[k].ends|;
    var next := k + 1;
    forall i: nat, j: nat, a, b | i <= j ensures CompleteEntry(st, ms, np, next, i, j, a, b) {
      assert PartialEntry(st, ms, np, k, n, n, i, j, a, b);
      if !PairDone(ms[k].ends, i, j, n, n) {
        NoTermWithout(ms[k], i, j, a, b);
      }
    }
  }

  /** Moving on over pairs that do not exist: a slot without a free vertex, or the end of a row. */
  lemma SkipSlots(st: Store, ms: seq<Measurement>, np: nat, k: nat, u: nat, v: nat, u': nat, v': nat)
    requires k < |ms| && Partial(st, ms, np, k, u, v)
    requires forall i: nat, j: nat :: PairDone(ms[k].ends, i, j, u', v') <==> PairDone(ms[k].ends, i, j, u, v)
    ensures Partial(st, ms, np, k, u', v')
  {
    hide StoredEntry, PairTerm, BlockTerms, Sum, PairDone;
    forall i: nat, j: nat, a, b | i <= j ensures PartialEntry(st, ms, np, k, u', v', i, j, a, b) {
      assert PartialEntry(st, ms, np, k, u, v, i, j, a, b);
    }
  }

  /** Vertices of an edge and their slots determine each other. */
  lemma SlotVertex(m: Measurement, s: nat, i: nat)
    requires ValidMeasurement(m) && s < |m.ends|
    ensures SlotFrom(m.ends, i, 0) == s <==> m.ends[s] == Some(i)
  {
    SlotIsEnd(m.ends, i, 0);
    if m.ends[s] == Some(i) {
      SlotOf(m, s);
    }
  }

  lemma FixedSecond(m: Measurement, u: nat, v: nat, i: nat, j: nat)
    requires ValidMeasurement(m) && u <= v < |m.ends| && m.ends[v] == None
    ensures PairDone(m.ends, i, j, u, v + 1) <==> PairDone(m.ends, i, j, u, v)
  {
    SlotVertex(m, v, i);
    SlotVertex(m, v, j);
  }

  lemma FixedFirst(m: Measurement, u: nat, i: nat, j: nat)
    requires ValidMeasurement(m) && u < |m.ends| && m.ends[u] == None
    ensures PairDone(m.ends, i, j, u + 1, u + 1) <==> PairDone(m.ends, i, j, u, u)
  {
    SlotVertex(m, u, i);
    SlotVertex(m, u, j);
  }

  lemma RowEnds(m: Measurement, u: nat, i: nat, j: nat)
    requires u < |m.ends|
    ensures PairDone(m.ends, i, j, u + 1, u + 1) <==> PairDone(m.ends, i, j, u, |m.ends|)
  {
  }

  /** The positions of the vertices at slots u <= v, smaller first. */
  ghost predicate IsPair(m: Measurement, u: nat, v: nat, lo: nat, hi: nat) {
    && u <= v < |m.ends| && lo <= hi
    && ((m.ends[u] == Some(lo) && m.ends[v] == Some(hi)) || (m.ends[u] == Some(hi) && m.ends[v] == Some(lo)))
  }

  lemma PairStep(m: Measurement, u: nat, v: nat, lo: nat, hi: nat, i: nat, j: nat)
    requires ValidMeasurement(m) && IsPair(m, u, v, lo, hi) && i <= j
    ensures PairDone(m.ends, i, j, u, v + 1) <==> PairDone(m.ends, i, j, u, v) || (i, j) == (lo, hi)
    ensures !PairDone(m.ends, lo, hi, u, v)
  {
    SlotVertex(m, u, lo);
    SlotVertex(m, v, hi);
    SlotVertex(m, u, hi);
    SlotVertex(m, v, lo);
    SlotVertex(m, u, i);
    SlotVertex(m, v, i);
    SlotVertex(m, u, j);
    SlotVertex(m, v, j);
  }

  /** Adding the pair's product to its block. */
  lemma AddPairTerm(st: Store, ms: seq<Measurement>, np: nat, k: nat, u: nat, v: nat, lo: nat, hi: nat, M: Matrix)
    requires k < |ms| && ValidMeasurement(ms[k]) && IsPair(ms[k], u, v, lo, hi)
    requires Partial(st, ms, np, k, u, v) && Present(st, np, lo, hi)
    requires forall a, b :: M(a, b) == PairTerm(ms[k], lo, hi)(a, b)
    ensures Partial(AddToStore(st, np, lo, hi, M), ms, np, k, u, v + 1)
  {
    hide StoredEntry, PairTerm, BlockTerms, Sum, PairDone, AddToStore, Present, ValidMeasurement;
    var st', v' := AddToStore(st, np, lo, hi, M), v + 1;
    forall i: nat, j: nat, a, b | i <= j ensures PartialEntry(st', ms, np, k, u, v', i, j, a, b) {
      assert PartialEntry(st, ms, np, k, u, v, i, j, a, b);
      StoredAfter(st, np, lo, hi, M, i, j, a, b);
      PairStep(ms[k], u, v, lo, hi, i, j);
    }
  }

  // ----- The right hand side

  ghost predicate GradientEntry(rhs: seq<Vector>, ms: seq<Measurement>, k: nat, u: nat, i: nat, a: int) {
    && i < |rhs|
    && rhs[i](a) == Sum(0, k, VertexTerms(ms, i, a))
         + if k < |ms| && SlotFrom(ms[k].ends, i, 0) < u then GradientTerm(ms[k], i)(a) else 0.0
  }

  /** The first k edges, and the slots before u of the next one, are summed up. */
  ghost predicate GradientUpTo(rhs: seq<Vector>, ms: seq<Measurement>, k: nat, u: nat) {
    forall i: nat, a :: i < |rhs| ==> GradientEntry(rhs, ms, k, u, i, a)
  }

  lemma AddGradientTerm(rhs: seq<Vector>, ms: seq<Measurement>, k: nat, u: nat, i: nat, x: Vector)
    requires k < |ms| && ValidMeasurement(ms[k]) && u < |ms[k].ends| && ms[k].ends[u] == Some(i) && i < |rhs|
    requires GradientUpTo(rhs, ms, k, u) && forall a :: x(a) == rhs[i](a) + GradientTerm(ms[k], i)(a)
    ensures GradientUpTo(rhs[i := x], ms, k, u + 1)
  {
    hide GradientTerm, VertexTerms, Sum, ValidMeasurement;
    var rhs', u' := rhs[i := x], u + 1;
    forall p: nat, a | p < |rhs| ensures GradientEntry(rhs', ms, k, u', p, a) {
      assert GradientEntry(rhs, ms, k, u, p, a);
      SlotVertex(ms[k], u, p);
      SlotVertex(ms[k], u, i);
    }
  }

  lemma SkipGradient(rhs: seq<Vector>, ms: seq<Measurement>, k: nat, u: nat)
    requires k < |ms| && ValidMeasurement(ms[k]) && u < |ms[k].ends| && ms[k].ends[u] == None
    requires GradientUpTo(rhs, ms, k, u)
    ensures GradientUpTo(rhs, ms, k, u + 1)
  {
    hide GradientTerm, VertexTerms, Sum, ValidMeasurement;
    var u' := u + 1;
    forall p: nat, a | p < |rhs| ensures GradientEntry(rhs, ms, k, u', p, a) {
      assert GradientEntry(rhs, ms, k, u, p, a);
      SlotVertex(ms[k], u, p);
    }
  }

  lemma FinishGradient(rhs: seq<Vector>, ms: seq<Measurement>, k: nat)
    requires k < |ms| && GradientUpTo(rhs, ms, k, |ms[k].ends|)
    ensures GradientUpTo(rhs, ms, k + 1, 0)
  {
    hide GradientTerm;
    var next := k + 1;
    forall p: nat, a | p < |rhs| ensures GradientEntry(rhs, ms, next, 0, p, a) {
      assert GradientEntry(rhs, ms, k, |ms[k].ends|, p, a);
      if SlotFrom(ms[k].ends, p, 0) >= |ms[k].ends| {
        NoGradientWithout(ms[k], p, a);
      }
    }
  }
}
