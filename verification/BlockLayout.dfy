/** Partitions of the rows or columns of a matrix into consecutive blocks, given by where each block ends. */
module BlockLayout {
  import opened Sums

  ghost predicate Monotone(ends: seq<nat>) {
    forall i, j :: 0 <= i < j < |ends| ==> ends[i] <= ends[j]
  }

  /** Where block b starts. */
  function Base(ends: seq<nat>, b: nat): nat {
    if 0 < b <= |ends| then ends[b - 1] else 0
  }

  function Size(ends: seq<nat>): nat {
    Base(ends, |ends|)
  }

  function Dim(ends: seq<nat>, b: nat): nat {
    if b < |ends| && Base(ends, b) <= ends[b] then ends[b] - Base(ends, b) else 0
  }

  /** Block b has an entry at offset t. */
  ghost predicate InSegment(ends: seq<nat>, b: nat, t: nat) {
    b < |ends| && t < Dim(ends, b)
  }

  /** i lies in block b. */
  ghost predicate Within(ends: seq<nat>, b: nat, i: int) {
    b < |ends| && Base(ends, b) <= i < ends[b]
  }

  /** The block that holds i; the number of blocks if none does. */
  function BlockOf(ends: seq<nat>, i: int): nat {
    BlockFrom(ends, i, 0)
  }

  function BlockFrom(ends: seq<nat>, i: int, from: nat): nat
    decreases |ends| - from
  {
    if from >= |ends| || i < ends[from] then from else BlockFrom(ends, i, from + 1)
  }

  lemma {:induction false} BlockFromFinds(ends: seq<nat>, i: int, from: nat, b: nat)
    requires from <= b < |ends| && i < ends[b]
    requires forall k :: from <= k < b ==> ends[k] <= i
    ensures BlockFrom(ends, i, from) == b
    decreases b - from
  {
    if from < b {
      BlockFromFinds(ends, i, from + 1, b);
    }
  }

  lemma {:induction false} BlockFromWithin(ends: seq<nat>, i: int, from: nat)
    requires from < |ends| && Base(ends, from) <= i < ends[|ends| - 1]
    ensures Within(ends, BlockFrom(ends, i, from), i)
    decreases |ends| - from
  {
    if ends[from] <= i {
      BlockFromWithin(ends, i, from + 1);
    }
  }

  lemma BlockOfWithin(ends: seq<nat>, i: int)
    requires 0 <= i < Size(ends)
    ensures Within(ends, BlockOf(ends, i), i)
  {
    BlockFromWithin(ends, i, 0);
  }

  lemma BlockUnique(ends: seq<nat>, b: nat, i: int)
    requires Monotone(ends) && Within(ends, b, i)
    ensures BlockOf(ends, i) == b
  {
    forall k | 0 <= k < b ensures ends[k] <= i {
      EndsBelow(ends, k, b);
    }
    BlockFromFinds(ends, i, 0, b);
  }

  lemma EndsBelow(ends: seq<nat>, a: nat, b: nat)
    requires Monotone(ends)
    ensures a < b <= |ends| ==> ends[a] <= Base(ends, b)
  {
  }

  lemma BaseMonotone(ends: seq<nat>, a: nat, b: nat)
    requires Monotone(ends) && a <= b <= |ends|
    ensures Base(ends, a) <= Base(ends, b) <= Size(ends)
  {
  }

  /** Blocks keep the order of their members. */
  lemma BlockOrder(ends: seq<nat>, a: nat, i: int, b: nat, j: int)
    requires Monotone(ends) && Within(ends, a, i) && Within(ends, b, j)
    ensures i <= j ==> a <= b
    ensures a < b ==> i < j
  {
    if b < a {
      BaseMonotone(ends, b + 1, a);
    } else if a < b {
      BaseMonotone(ends, a + 1, b);
    }
  }

  /** Only block b of f is not zero, and g lists that block from zero on. */
  lemma SumOverBlock(ends: seq<nat>, b: nat, f: int -> real, g: int -> real)
    requires Monotone(ends) && b < |ends|
    requires forall k :: 0 <= k < Size(ends) && !Within(ends, b, k) ==> f(k) == 0.0
    requires forall t :: 0 <= t < Dim(ends, b) ==> g(t) == f(Base(ends, b) + t)
    ensures Sum(0, Size(ends), f) == Sum(0, Dim(ends, b), g)
  {
    BaseMonotone(ends, b, b + 1);
    BaseMonotone(ends, b + 1, |ends|);
    SumSplit(0, Base(ends, b), Size(ends), f);
    SumSplit(Base(ends, b), ends[b], Size(ends), f);
    SumZero(0, Base(ends, b), f);
    SumZero(ends[b], Size(ends), f);
    SumShift(0, Dim(ends, b), Base(ends, b), f, g);
  }

  /** The part of a sum that block b contributes. */
  lemma SumOfBlock(ends: seq<nat>, b: nat, f: int -> real, g: int -> real)
    requires Monotone(ends) && b < |ends|
    requires forall t :: 0 <= t < Dim(ends, b) ==> g(t) == f(Base(ends, b) + t)
    ensures Sum(0, Base(ends, b + 1), f) == Sum(0, Base(ends, b), f) + Sum(0, Dim(ends, b), g)
  {
    BaseMonotone(ends, b, b + 1);
    SumSplit(0, Base(ends, b), ends[b], f);
    SumShift(0, Dim(ends, b), Base(ends, b), f, g);
  }
}
