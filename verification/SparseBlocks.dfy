/**
 Block-sparse matrices: columns of blocks keyed by their block row, the dense matrix they denote, and
 the operations on them.
 */
module SparseBlocks {
  import opened LinearAlgebra
  import opened BlockLayout

  /** The blocks of one block column, by block row. A block's entries count from its own corner. */
  type BlockColumn = map<nat, Matrix>
  type BlockColumns = seq<BlockColumn>

  function Zero(): Matrix {
    (i, j) => 0.0
  }

  function PlusMatrix(A: Matrix, B: Matrix): Matrix {
    (i, j) => A(i, j) + B(i, j)
  }

  /** Entry (a, b) of block (r, c); absent blocks are zero. */
  function BlockEntry(cols: BlockColumns, r: nat, c: nat, a: int, b: int): real {
    if c < |cols| && r in cols[c] then cols[c][r](a, b) else 0.0
  }

  function WithBlock(cols: BlockColumns, r: nat, c: nat, B: Matrix): BlockColumns
    requires c < |cols|
  {
    var column: BlockColumn := cols[c][r := B];
    cols[c := column]
  }

  lemma EntryPresent(cols: BlockColumns, r: nat, c: nat, a: int, b: int)
    requires c < |cols| && r in cols[c]
    ensures BlockEntry(cols, r, c, a, b) == cols[c][r](a, b)
  {
  }

  lemma EntryAfter(cols: BlockColumns, r: nat, c: nat, B: Matrix, r': nat, c': nat, a: int, b: int)
    requires c < |cols|
    ensures BlockEntry(WithBlock(cols, r, c, B), r', c', a, b) == if (r', c') == (r, c) then B(a, b) else BlockEntry(cols, r', c', a, b)
  {
  }

  function Zeroed(column: BlockColumn): BlockColumn {
    map r | r in column :: Zero()
  }

  /** Entry (i, j) of the whole matrix. */
  function Entry(rowEnds: seq<nat>, colEnds: seq<nat>, cols: BlockColumns, i: int, j: int): real {
    var r, c := BlockOf(rowEnds, i), BlockOf(colEnds, j);
    if 0 <= i && 0 <= j && r < |rowEnds| && c < |colEnds|
    then BlockEntry(cols, r, c, i - Base(rowEnds, r), j - Base(colEnds, c))
    else 0.0
  }

  function Dense(rowEnds: seq<nat>, colEnds: seq<nat>, cols: BlockColumns): Matrix {
    (i, j) => Entry(rowEnds, colEnds, cols, i, j)
  }

  lemma EntryInBlock(rowEnds: seq<nat>, colEnds: seq<nat>, cols: BlockColumns, r: nat, c: nat, i: int, j: int)
    requires Monotone(rowEnds) && Monotone(colEnds) && Within(rowEnds, r, i) && Within(colEnds, c, j)
    ensures Entry(rowEnds, colEnds, cols, i, j) == BlockEntry(cols, r, c, i - Base(rowEnds, r), j - Base(colEnds, c))
  {
    BlockUnique(rowEnds, r, i);
    BlockUnique(colEnds, c, j);
  }

  /** Every block sits at an existing place. */
  ghost predicate ValidBlocks(rowEnds: seq<nat>, colEnds: seq<nat>, cols: BlockColumns) {
    && Monotone(rowEnds) && Monotone(colEnds) && |cols| == |colEnds|
    && forall c, r :: 0 <= c < |cols| && r in cols[c] ==> r < |rowEnds|
  }

  // ----- y += A x and y += A^T x on segments of longer vectors

  method Axpy(A: Matrix, rows: nat, cols: nat, x: Vector, xoff: int, y: array<real>, yoff: nat)
    requires yoff + rows <= y.Length
    modifies y
    ensures forall p :: 0 <= p < y.Length ==>
      y[p] == old(y[p]) + if yoff <= p < yoff + rows then MatVec(cols, A, FromOffset(x, xoff))(p - yoff) else 0.0
  {
    for i := 0 to rows
      invariant forall p :: 0 <= p < y.Length ==>
        y[p] == old(y[p]) + if yoff <= p < yoff + i then MatVec(cols, A, FromOffset(x, xoff))(p - yoff) else 0.0
    {
      y[yoff + i] := y[yoff + i] + MatVec(cols, A, FromOffset(x, xoff))(i);
    }
  }

  // ----- The matrix

  class SparseBlockMatrix {
    const rowBlockIndices: seq<nat>
    const colBlockIndices: seq<nat>
    const hasStorage: bool
    var blockCols: BlockColumns

    constructor (rbi: seq<nat>, cbi: seq<nat>, hasStorage: bool)
      requires Monotone(rbi) && Monotone(cbi)
      ensures Valid() && rowBlockIndices == rbi && colBlockIndices == cbi && this.hasStorage == hasStorage
      ensures forall c :: 0 <= c < |blockCols| ==> blockCols[c] == map[]
    {
      rowBlockIndices, colBlockIndices, this.hasStorage := rbi, cbi, hasStorage;
      blockCols := seq(|cbi|, _ => map[]);
    }

    ghost predicate Valid()
      reads this
    {
      ValidBlocks(rowBlockIndices, colBlockIndices, blockCols)
    }

    function AsDense(): Matrix
      reads this
    {
      Dense(rowBlockIndices, colBlockIndices, blockCols)
    }

    /**
     Looks a block up, creating a zero block when it is missing. A matrix that owns its blocks creates
     it even when alloc is false.
     */
    method Block(r: nat, c: nat, alloc: bool) returns (found: bool)
      requires Valid() && r < |rowBlockIndices| && c < |colBlockIndices|
      modifies this
      ensures Valid()
      ensures found <==> r in old(blockCols[c]) || hasStorage || alloc
      ensures if r in old(blockCols[c]) || !found then blockCols == old(blockCols)
              else blockCols == WithBlock(old(blockCols), r, c, Zero())
      ensures forall i, j :: AsDense()(i, j) == old(AsDense())(i, j)
    {
      if r in blockCols[c] {
        return true;
      }
      if !hasStorage && !alloc {
        return false;
      }
      blockCols := WithBlock(blockCols, r, c, Zero());
      return true;
    }

    /** Zeroes every block, or drops them all. */
    method Clear(dealloc: bool)
      requires Valid()
      modifies this
      ensures Valid() && |blockCols| == |old(blockCols)|
      ensures forall c :: 0 <= c < |blockCols| ==>
        blockCols[c] == if hasStorage && dealloc then map[] else Zeroed(old(blockCols[c]))
      ensures forall i, j :: AsDense()(i, j) == 0.0
    {
      for i := 0 to |blockCols|
        invariant Valid() && |blockCols| == |old(blockCols)|
        invariant forall c :: 0 <= c < i ==>
          blockCols[c] == if hasStorage && dealloc then map[] else Zeroed(old(blockCols[c]))
        invariant forall c :: i <= c < |blockCols| ==> blockCols[c] == old(blockCols[c])
      {
        blockCols := blockCols[i := if hasStorage && dealloc then map[] else Zeroed(blockCols[i])];
      }
    }

    /** Adds to a block that is there. */
    method AddTo(r: nat, c: nat, B: Matrix)
      requires Valid() && c < |blockCols| && r in blockCols[c]
      modifies this
      ensures Valid() && blockCols == WithBlock(old(blockCols), r, c, PlusMatrix(old(blockCols[c][r]), B))
    {
      blockCols := WithBlock(blockCols, r, c, PlusMatrix(blockCols[c][r], B));
    }

    /** Overwrites a block that is there. */
    method SetBlock(r: nat, c: nat, B: Matrix)
      requires Valid() && c < |blockCols| && r in blockCols[c]
      modifies this
      ensures Valid() && blockCols == WithBlock(old(blockCols), r, c, B)
    {
      blockCols := WithBlock(blockCols, r, c, B);
    }
  }
}
