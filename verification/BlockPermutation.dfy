/** Symmetric permutations of the blocks of a matrix, and the permutation of its rows and columns they stand for. */
module BlockPermutation {
  import opened Sums
  import opened LinearAlgebra
  import opened BlockLayout
  import opened SparseBlocks
  import opened SparseBlockAlgebra
  import opened SymmetricProduct

  ghost predicate Inverse(p: seq<int>, pinv: seq<int>) {
    && |p| == |pinv|
    && (forall k :: 0 <= k < |p| ==> 0 <= p[k] < |p| && pinv[p[k]] == k)
    && (forall i :: 0 <= i < |pinv| ==> 0 <= pinv[i] < |pinv| && p[pinv[i]] == i)
  }

  // ----- The permuted layout

  ghost function DimAt(ends: seq<nat>, b: int): nat {
    if b < 0 then 0 else Dim(ends, b)
  }

  /** The layout whose block k has the size of block p[k] of ends. */
  ghost function Reordered(ends: seq<nat>, p: seq<int>): seq<nat> {
    if p == [] then [] else
    var front := Reordered(ends, p[..|p| - 1]);
    front + [Size(front) + DimAt(ends, p[|p| - 1])]
  }

  ghost predicate HasDims(ends: seq<nat>, p: seq<int>, newEnds: seq<nat>) {
    |newEnds| == |p| && forall b: nat :: b < |p| ==> newEnds[b] == Base(newEnds, b) + DimAt(ends, p[b])
  }

  lemma {:induction false} ReorderedHasDims(ends: seq<nat>, p: seq<int>)
    ensures HasDims(ends, p, Reordered(ends, p))
  {
    if p != [] {
      hide DimAt;
      ReorderedHasDims(ends, p[..|p| - 1]);
    }
  }

  lemma {:induction false} HasDimsUnique(ends: seq<nat>, p: seq<int>, e: seq<nat>, f: seq<nat>, b: nat)
    requires HasDims(ends, p, e) && HasDims(ends, p, f) && b < |p|
    ensures e[b] == f[b]
  {
    hide DimAt;
    if b > 0 {
      HasDimsUnique(ends, p, e, f, b - 1);
    }
  }

  lemma IsReordered(ends: seq<nat>, p: seq<int>, e: seq<nat>)
    requires HasDims(ends, p, e)
    ensures e == Reordered(ends, p)
  {
    hide DimAt, Reordered;
    ReorderedHasDims(ends, p);
    forall b: nat | b < |p| ensures e[b] == Reordered(ends, p)[b] {
      HasDimsUnique(ends, p, e, Reordered(ends, p), b);
    }
  }

  lemma {:induction false} StepsAreMonotone(e: seq<nat>, i: nat, j: nat)
    requires i <= j < |e| && forall b: nat :: b < |e| ==> Base(e, b) <= e[b]
    ensures e[i] <= e[j]
    decreases j
  {
    if i < j {
      StepsAreMonotone(e, i, j - 1);
      assert Base(e, j) == e[j - 1];
    }
  }

  lemma ReorderedLayout(ends: seq<nat>, p: seq<int>)
    ensures |Reordered(ends, p)| == |p| && Monotone(Reordered(ends, p))
    ensures forall b: nat :: b < |p| ==> Dim(Reordered(ends, p), b) == DimAt(ends, p[b])
  {
    var e := Reordered(ends, p);
    ReorderedHasDims(ends, p);
    forall i, j | 0 <= i < j < |e| ensures e[i] <= e[j] {
      StepsAreMonotone(e, i, j);
    }
  }

  ghost function DimTerm(ends: seq<nat>): Vector {
    b => DimAt(ends, b) as real
  }

  lemma {:induction false} BaseIsSum(ends: seq<nat>, b: nat)
    requires Monotone(ends) && b <= |ends|
    ensures Base(ends, b) as real == Sum(0, b, DimTerm(ends))
  {
    if b > 0 {
      BaseIsSum(ends, b - 1);
    }
  }

  lemma ReorderedSize(ends: seq<nat>, p: seq<int>)
    requires Monotone(ends) && IsPermutation(p, |ends|)
    ensures Size(Reordered(ends, p)) == Size(ends)
  {
    var e := Reordered(ends, p);
    ReorderedLayout(ends, p);
    BaseIsSum(ends, |ends|);
    BaseIsSum(e, |e|);
    hide Dim;
    SumPermutation(p, |ends|, DimTerm(ends), DimTerm(e));
  }

  lemma InverseIsPermutation(p: seq<int>, pinv: seq<int>)
    requires Inverse(p, pinv)
    ensures IsPermutation(p, |p|) && IsPermutation(pinv, |p|)
  {
  }

  /** The sizes of the blocks, each at its new place. */
  method PermutedSizes(ends: seq<nat>, pinv: seq<int>, ghost p: seq<int>) returns (sizes: array<nat>)
    requires Monotone(ends) && 0 < |ends| == |pinv| && Inverse(p, pinv)
    ensures fresh(sizes) && sizes.Length == |ends|
    ensures forall b: nat :: b < |ends| ==> sizes[b] == DimAt(ends, p[b])
  {
    var n := |ends|;
    var blockSizes := new nat[n];
    blockSizes[0] := ends[0];
    for i := 1 to n
      invariant forall k: nat :: k < i ==> blockSizes[k] == Dim(ends, k)
    {
      blockSizes[i] := ends[i] - ends[i - 1];
    }
    hide Dim;
    sizes := new nat[n];
    for i := 0 to n
      invariant forall k: nat :: k < n ==> blockSizes[k] == Dim(ends, k)
      invariant forall k: nat :: k < i ==> sizes[pinv[k]] == blockSizes[k]
    {
      sizes[pinv[i]] := blockSizes[i];
    }
    forall b: nat | b < n ensures sizes[b] == DimAt(ends, p[b]) {
      assert pinv[p[b]] == b;
    }
  }

  /** The layout of the permuted matrix: the permuted sizes, summed up in place. */
  method PermutedLayout(ends: seq<nat>, pinv: seq<int>, ghost p: seq<int>) returns (indices: seq<nat>)
    requires Monotone(ends) && 0 < |ends| == |pinv| && Inverse(p, pinv)
    ensures indices == Reordered(ends, p)
  {
    hide DimAt, Monotone;
    var pBlockIndices := PermutedSizes(ends, pinv, p);
    for i := 1 to |ends|
      invariant pBlockIndices[0] == DimAt(ends, p[0])
      invariant forall k :: 1 <= k < i ==> pBlockIndices[k] == pBlockIndices[k - 1] + DimAt(ends, p[k])
      invariant forall k :: i <= k < |ends| ==> pBlockIndices[k] == DimAt(ends, p[k])
    {
      pBlockIndices[i] := pBlockIndices[i] + pBlockIndices[i - 1];
    }
    indices := pBlockIndices[..];
    IsReordered(ends, p, indices);
  }

  // ----- The scalar permutation

  /** Where row k of the permuted matrix comes from. */
  ghost function ScalarOf(ends: seq<nat>, p: seq<int>, k: int): int {
    var newEnds := Reordered(ends, p);
    var b := BlockOf(newEnds, k);
    if b < |p| && 0 <= p[b] then Base(ends, p[b]) + k - Base(newEnds, b) else 0
  }

  lemma ScalarInBlock(ends: seq<nat>, p: seq<int>, b: nat, t: nat)
    requires Monotone(ends) && IsPermutation(p, |ends|) && InSegment(Reordered(ends, p), b, t)
    ensures b < |p| && 0 <= p[b] < |ends| && ScalarOf(ends, p, Base(Reordered(ends, p), b) + t) == Base(ends, p[b]) + t
    ensures InSegment(ends, p[b], t)
  {
    ReorderedLayout(ends, p);
    SegmentWithin(Reordered(ends, p), b, t);
    hide Within;
    BlockUnique(Reordered(ends, p), b, Base(Reordered(ends, p), b) + t);
  }

  lemma SegmentOnce(ends: seq<nat>, b: nat, t: nat, b': nat, t': nat)
    requires Monotone(ends) && InSegment(ends, b, t) && InSegment(ends, b', t') && Base(ends, b) + t == Base(ends, b') + t'
    ensures b == b' && t == t'
  {
    SegmentWithin(ends, b, t);
    SegmentWithin(ends, b', t');
    hide Within;
    BlockUnique(ends, b, Base(ends, b) + t);
    BlockUnique(ends, b', Base(ends, b') + t');
  }

  lemma SegmentBelowSize(ends: seq<nat>, b: nat, t: nat)
    requires Monotone(ends) && InSegment(ends, b, t)
    ensures Base(ends, b) + t < Size(ends)
  {
    BaseMonotone(ends, b + 1, |ends|);
  }

  /** Distinct rows come from distinct rows, and all from within the matrix. */
  lemma ScalarIsInjective(ends: seq<nat>, p: seq<int>, k: int, l: int)
    requires Monotone(ends) && IsPermutation(p, |ends|) && 0 <= k < Size(ends) && 0 <= l < Size(ends)
    ensures 0 <= ScalarOf(ends, p, k) < Size(ends)
    ensures ScalarOf(ends, p, k) == ScalarOf(ends, p, l) ==> k == l
  {
    hide Size, InSegment, Dim, ScalarOf, Base;
    ReorderedSize(ends, p);
    var b, t := Locate(Reordered(ends, p), k);
    var b', t' := Locate(Reordered(ends, p), l);
    ScalarInBlock(ends, p, b, t);
    ScalarInBlock(ends, p, b', t');
    SegmentBelowSize(ends, p[b], t);
    if ScalarOf(ends, p, k) == ScalarOf(ends, p, l) {
      SegmentOnce(ends, p[b], t, p[b'], t');
    }
  }

  /** A block permutation, spelled out row by row. The output vector is grown when it is too short. */
  method BlockToScalarPermutation(A: SparseBlockMatrix, p: seq<int>, scalar0: array<int>) returns (scalar: array<int>)
    requires A.Valid() && IsPermutation(p, |A.colBlockIndices|)
    modifies scalar0
    ensures scalar.Length == if scalar0.Length == 0 then Size(A.colBlockIndices)
                             else if scalar0.Length < Size(A.colBlockIndices) then 2 * Size(A.colBlockIndices) else scalar0.Length
    ensures scalar0.Length >= Size(A.colBlockIndices) > 0 ==> scalar == scalar0
    ensures forall k :: 0 <= k < Size(A.colBlockIndices) ==> scalar[k] == ScalarOf(A.colBlockIndices, p, k)
    ensures IsPermutation(scalar[..Size(A.colBlockIndices)], Size(A.colBlockIndices))
  {
    var ends := A.colBlockIndices;
    var n := Size(ends);
    scalar := scalar0;
    if scalar.Length == 0 {
      scalar := new int[n];
    }
    if scalar.Length < n {
      scalar := new int[2 * n];
    }
    WriteScalars(ends, p, scalar);
    forall k, l | 0 <= k < n && 0 <= l < n
      ensures 0 <= scalar[k] < n && (scalar[k] == scalar[l] ==> k == l)
    {
      ScalarIsInjective(ends, p, k, l);
    }
  }

  method WriteScalars(ends: seq<nat>, p: seq<int>, scalar: array<int>)
    requires Monotone(ends) && IsPermutation(p, |ends|) && Size(ends) <= scalar.Length
    modifies scalar
    ensures forall k :: 0 <= k < Size(ends) ==> scalar[k] == ScalarOf(ends, p, k)
  {
    hide ScalarOf, Reordered;
    ReorderedSize(ends, p);
    ReorderedLayout(ends, p);
    ghost var newEnds := Reordered(ends, p);
    var scalarIdx := 0;
    assert Base(newEnds, 0) == 0;
    for i := 0 to |ends|
      invariant scalarIdx == Base(newEnds, i)
      invariant forall k :: 0 <= k < scalarIdx ==> scalar[k] == ScalarOf(ends, p, k)
    {
      BaseMonotone(newEnds, i + 1, |newEnds|);
      var base := Base(ends, p[i]);
      for j := 0 to Dim(ends, p[i])
        invariant scalarIdx == Base(newEnds, i) + j && base == Base(ends, p[i]) + j
        invariant forall k :: 0 <= k < scalarIdx ==> scalar[k] == ScalarOf(ends, p, k)
      {
        ScalarInBlock(ends, p, i, j);
        scalar[scalarIdx] := base;
        scalarIdx := scalarIdx + 1;
        base := base + 1;
      }
    }
    assert Base(newEnds, |ends|) == Size(newEnds);
  }

  // ----- Moving the blocks

  /** Where a block is read: in a matrix that stores its upper triangle, blocks below it are transposes. */
  ghost function PlacedEntry(upper: bool, cols: BlockColumns, r: nat, c: nat, a: int, b: int): real {
    if !upper || r <= c then BlockEntry(cols, r, c, a, b) else BlockEntry(cols, c, r, b, a)
  }

  /** All blocks of src a pass has been past are in their new places; the others' places are zero. */
  ghost predicate MovedUpTo(upper: bool, src: BlockColumns, now: BlockColumns, pinv: seq<int>, r: nat, c: nat) {
    forall r': nat, c': nat, a, b :: r' < |pinv| && c' < |pinv| && (upper ==> r' <= c') ==>
      Moved(upper, src, now, pinv, r', c', a, b, Past(r', c', r, c))
  }

  ghost predicate Moved(upper: bool, src: BlockColumns, now: BlockColumns, pinv: seq<int>, r: nat, c: nat, a: int,
                        b: int, done: bool) {
    && r < |pinv| && c < |pinv| && pinv[r] >= 0 && pinv[c] >= 0
    && PlacedEntry(upper, now, pinv[r], pinv[c], a, b) == if done then BlockEntry(src, r, c, a, b) else 0.0
  }

  method MoveBlock(dest: SparseBlockMatrix, src: BlockColumns, pinv: seq<int>, upper: bool, r: nat, c: nat,
                   ghost p: seq<int>)
    requires dest.Valid() && Inverse(p, pinv) && |pinv| == |dest.rowBlockIndices| == |dest.colBlockIndices| == |src|
    requires c < |src| && r in src[c] && r < |pinv| && (upper ==> r <= c)
    requires MovedUpTo(upper, src, dest.blockCols, pinv, r, c)
    modifies dest
    ensures dest.Valid() && MovedUpTo(upper, src, dest.blockCols, pinv, r + 1, c)
  {
    ghost var before := dest.blockCols;
    var pi, pj := pinv[c], pinv[r];
    if !upper || pj <= pi {
      PutBlock(dest, pj, pi, src[c][r]);
    } else {
      PutBlock(dest, pi, pj, Transpose(src[c][r]));
    }
    BlockMoved(upper, src, before, dest.blockCols, pinv, r, c, p);
  }

  lemma BlockMoved(upper: bool, src: BlockColumns, before: BlockColumns, now: BlockColumns, pinv: seq<int>, r: nat,
                   c: nat, p: seq<int>)
    requires Inverse(p, pinv) && |pinv| == |src| && c < |src| && r in src[c] && r < |pinv| && (upper ==> r <= c)
    requires MovedUpTo(upper, src, before, pinv, r, c)
    requires if !upper || pinv[r] <= pinv[c] then Put(before, now, pinv[r], pinv[c], src[c][r])
             else Put(before, now, pinv[c], pinv[r], Transpose(src[c][r]))
    ensures MovedUpTo(upper, src, now, pinv, r + 1, c)
  {
    var next := r + 1;
    forall r': nat, c': nat, a, b | r' < |pinv| && c' < |pinv| && (upper ==> r' <= c')
      ensures Moved(upper, src, now, pinv, r', c', a, b, Past(r', c', next, c))
    {
      assert Moved(upper, src, before, pinv, r', c', a, b, Past(r', c', r, c));
      assert p[pinv[r']] == r' && p[pinv[c']] == c' && p[pinv[r]] == r && p[pinv[c]] == c;
      hide BlockEntry, Inverse;
      if (r', c') == (r, c) {
        EntryPresent(src, r, c, a, b);
      }
    }
  }

  lemma NextMovedColumn(upper: bool, src: BlockColumns, now: BlockColumns, pinv: seq<int>, c: nat)
    requires MovedUpTo(upper, src, now, pinv, |pinv|, c)
    ensures MovedUpTo(upper, src, now, pinv, 0, c + 1)
  {
    var next := c + 1;
    forall r': nat, c': nat, a, b | r' < |pinv| && c' < |pinv| && (upper ==> r' <= c')
      ensures Moved(upper, src, now, pinv, r', c', a, b, Past(r', c', 0, next))
    {
      hide Moved;
      assert Moved(upper, src, now, pinv, r', c', a, b, Past(r', c', |pinv|, c));
    }
  }

  /** A pass goes by an absent block without doing anything. */
  lemma SkipAbsent(upper: bool, src: BlockColumns, now: BlockColumns, pinv: seq<int>, r: nat, c: nat)
    requires c < |src| && r !in src[c]
    requires MovedUpTo(upper, src, now, pinv, r, c)
    ensures MovedUpTo(upper, src, now, pinv, r + 1, c)
  {
    var next := r + 1;
    forall r': nat, c': nat, a, b | r' < |pinv| && c' < |pinv| && (upper ==> r' <= c')
      ensures Moved(upper, src, now, pinv, r', c', a, b, Past(r', c', next, c))
    {
      assert Moved(upper, src, now, pinv, r', c', a, b, Past(r', c', r, c));
    }
  }

  ghost predicate AllZero(cols: BlockColumns) {
    forall r: nat, c: nat, a, b :: BlockEntry(cols, r, c, a, b) == 0.0
  }

  lemma StartMoved(upper: bool, src: BlockColumns, now: BlockColumns, pinv: seq<int>, p: seq<int>)
    requires AllZero(now) && Inverse(p, pinv)
    ensures MovedUpTo(upper, src, now, pinv, 0, 0)
  {
    hide BlockEntry;
  }

  method MoveBlocks(dest: SparseBlockMatrix, src: BlockColumns, pinv: seq<int>, upper: bool, ghost p: seq<int>)
    requires dest.Valid() && Inverse(p, pinv) && |pinv| == |dest.rowBlockIndices| == |dest.colBlockIndices| == |src|
    requires AllZero(dest.blockCols) && (upper ==> UpperOnly(src))
    modifies dest
    ensures dest.Valid() && MovedUpTo(upper, src, dest.blockCols, pinv, 0, |src|)
  {
    hide MovedUpTo, AllZero, Inverse;
    StartMoved(upper, src, dest.blockCols, pinv, p);
    for i := 0 to |src|
      invariant dest.Valid() && MovedUpTo(upper, src, dest.blockCols, pinv, 0, i)
    {
      for r := 0 to |pinv|
        invariant dest.Valid() && MovedUpTo(upper, src, dest.blockCols, pinv, r, i)
      {
        if r in src[i] {
          MoveBlock(dest, src, pinv, upper, r, i, p);
        } else {
          SkipAbsent(upper, src, dest.blockCols, pinv, r, i);
        }
      }
      NextMovedColumn(upper, src, dest.blockCols, pinv, i);
    }
  }

  method Prepare(dest0: SparseBlockMatrix?, indices: seq<nat>) returns (ok: bool, dest: SparseBlockMatrix?)
    requires dest0 != null ==> dest0.Valid()
    requires Monotone(indices)
    modifies dest0
    ensures ok <==> dest0 == null || (dest0.rowBlockIndices == indices && dest0.colBlockIndices == indices)
    ensures !ok ==> dest == dest0 && dest != null && dest.blockCols == old(dest0.blockCols)
    ensures ok ==> dest != null && (if dest0 == null then fresh(dest) else dest == dest0)
    ensures ok ==> dest.Valid() && dest.rowBlockIndices == indices && dest.colBlockIndices == indices && AllZero(dest.blockCols)
    ensures dest0 == null ==> dest.hasStorage && forall c :: 0 <= c < |dest.blockCols| ==> dest.blockCols[c] == map[]
    ensures ok && dest0 != null ==> |dest.blockCols| == |old(dest0.blockCols)|
    ensures ok && dest0 != null ==> forall c :: 0 <= c < |dest.blockCols| ==> dest.blockCols[c] == Zeroed(old(dest0.blockCols[c]))
  {
    if dest0 == null {
      dest := new SparseBlockMatrix(indices, indices, true);
    } else {
      dest := dest0;
      if dest.rowBlockIndices != indices || dest.colBlockIndices != indices {
        return false, dest;
      }
      dest.Clear(false);
    }
    return true, dest;
  }

  /** Entry (i, j) of dest is the entry of the original the permutation takes it from, in either mode. */
  ghost predicate IsPermuted(upper: bool, ends: seq<nat>, p: seq<int>, src: BlockColumns, now: BlockColumns) {
    var newEnds := Reordered(ends, p);
    forall k, l :: 0 <= k < Size(ends) && 0 <= l < Size(ends) ==>
      if upper then Full(newEnds, now)(k, l) == Full(ends, src)(ScalarOf(ends, p, k), ScalarOf(ends, p, l))
      else Dense(newEnds, newEnds, now)(k, l) == Dense(ends, ends, src)(ScalarOf(ends, p, k), ScalarOf(ends, p, l))
  }

  lemma MovedEntry(upper: bool, ends: seq<nat>, p: seq<int>, pinv: seq<int>, src: BlockColumns, now: BlockColumns,
                   b: nat, c: nat, t: int, u: int)
    requires Inverse(p, pinv) && MovedUpTo(upper, src, now, pinv, 0, |p|) && b < |p| && c < |p|
    ensures PlacedEntry(upper, now, b, c, t, u) == PlacedEntry(upper, src, p[b], p[c], t, u)
  {
    hide BlockEntry;
    assert pinv[p[b]] == b && pinv[p[c]] == c;
    if upper && p[c] < p[b] {
      assert Moved(upper, src, now, pinv, p[c], p[b], u, t, Past(p[c], p[b], 0, |p|));
    } else {
      assert Moved(upper, src, now, pinv, p[b], p[c], t, u, Past(p[b], p[c], 0, |p|));
    }
  }

  lemma PlacedIsFull(ends: seq<nat>, cols: BlockColumns, b: nat, t: nat, c: nat, u: nat)
    requires Monotone(ends) && InSegment(ends, b, t) && InSegment(ends, c, u)
    ensures Full(ends, cols)(Base(ends, b) + t, Base(ends, c) + u) == PlacedEntry(true, cols, b, c, t, u)
    ensures Dense(ends, ends, cols)(Base(ends, b) + t, Base(ends, c) + u) == PlacedEntry(false, cols, b, c, t, u)
  {
    FullInBlock(ends, cols, b, t, c, u);
    SegmentWithin(ends, b, t);
    SegmentWithin(ends, c, u);
    hide Full, Within, BlockEntry, Entry;
    EntryInBlock(ends, ends, cols, b, c, Base(ends, b) + t, Base(ends, c) + u);
  }

  lemma PermutedEntry(upper: bool, ends: seq<nat>, p: seq<int>, pinv: seq<int>, src: BlockColumns, now: BlockColumns,
                      k: int, l: int)
    requires Monotone(ends) && |p| == |ends| && Inverse(p, pinv) && MovedUpTo(upper, src, now, pinv, 0, |p|)
    requires 0 <= k < Size(ends) && 0 <= l < Size(ends)
    ensures var newEnds := Reordered(ends, p);
            if upper then Full(newEnds, now)(k, l) == Full(ends, src)(ScalarOf(ends, p, k), ScalarOf(ends, p, l))
            else Dense(newEnds, newEnds, now)(k, l) == Dense(ends, ends, src)(ScalarOf(ends, p, k), ScalarOf(ends, p, l))
  {
    hide *;
    var newEnds := Reordered(ends, p);
    InverseIsPermutation(p, pinv);
    ReorderedSize(ends, p);
    ReorderedLayout(ends, p);
    var b, t := Locate(newEnds, k);
    var c, u := Locate(newEnds, l);
    ScalarInBlock(ends, p, b, t);
    ScalarInBlock(ends, p, c, u);
    PlacedIsFull(newEnds, now, b, t, c, u);
    PlacedIsFull(ends, src, p[b], t, p[c], u);
    MovedEntry(upper, ends, p, pinv, src, now, b, c, t, u);
  }

  /**
   Moves block (r, c) to (pinv[r], pinv[c]). In upper mode, for a matrix that stores its upper triangle, a
   block that would come to lie below the diagonal is stored transposed above it.
   */
  method SymmPermutation(A: SparseBlockMatrix, dest0: SparseBlockMatrix?, pinv: seq<int>, upper: bool, ghost p: seq<int>)
    returns (ok: bool, dest: SparseBlockMatrix?)
    requires A.Valid() && A.rowBlockIndices == A.colBlockIndices && 0 < |A.rowBlockIndices| == |pinv| && Inverse(p, pinv)
    requires dest0 != null ==> dest0.Valid() && dest0 != A
    requires upper ==> UpperOnly(A.blockCols)
    modifies dest0
    ensures ok <==> dest0 == null ||
                    (dest0.rowBlockIndices == Reordered(A.rowBlockIndices, p) && dest0.colBlockIndices == Reordered(A.rowBlockIndices, p))
    ensures !ok ==> dest == dest0 && dest != null && dest.blockCols == old(dest0.blockCols)
    ensures ok ==> dest != null && dest.Valid() && (if dest0 == null then fresh(dest) && dest.hasStorage else dest == dest0)
    ensures ok ==> dest.rowBlockIndices == Reordered(A.rowBlockIndices, p) && dest.colBlockIndices == Reordered(A.rowBlockIndices, p)
    ensures ok ==> IsPermuted(upper, A.rowBlockIndices, p, A.blockCols, dest.blockCols)
  {
    hide MovedUpTo, AllZero, Inverse, Reordered, UpperOnly, ScalarOf, Full, Dense;
    var ends, src := A.rowBlockIndices, A.blockCols;
    var pBlockIndices := PermutedLayout(ends, pinv, p);
    ReorderedLayout(ends, p);
    SameLength(p, pinv);
    ok, dest := Prepare(dest0, pBlockIndices);
    if ok {
      MoveBlocks(dest, src, pinv, upper, p);
      forall k, l | 0 <= k < Size(ends) && 0 <= l < Size(ends)
        ensures if upper then Full(pBlockIndices, dest.blockCols)(k, l) == Full(ends, src)(ScalarOf(ends, p, k), ScalarOf(ends, p, l))
                else Dense(pBlockIndices, pBlockIndices, dest.blockCols)(k, l) == Dense(ends, ends, src)(ScalarOf(ends, p, k), ScalarOf(ends, p, l))
      {
        PermutedEntry(upper, ends, p, pinv, src, dest.blockCols, k, l);
      }
    }
  }

  lemma SameLength(p: seq<int>, pinv: seq<int>)
    requires Inverse(p, pinv)
    ensures |p| == |pinv|
  {
  }
}
