/** The numbering of the pairs i < j of an edge's vertices, in which the off-diagonal blocks are stored. */
module PairIndex {

  /** 0 + 1 + ... + (j - 1): how many pairs have a second member below j. */
  function Triangle(j: nat): nat {
    if j == 0 then 0 else Triangle(j - 1) + j - 1
  }

  lemma {:induction false} TriangleFormula(j: nat)
    ensures j * (j - 1) == 2 * Triangle(j)
  {
    if j > 0 {
      TriangleFormula(j - 1);
      assert j * (j - 1) == (j - 1) * (j - 2) + 2 * (j - 1);
    }
  }

  function PairToIndex(i: nat, j: nat): int {
    j * (j - 1) / 2 + i
  }

  /** The pair with the given index, found by counting down through the second members. */
  function IndexToPair(k: nat, j: nat): (nat, nat)
    decreases k - j, k
  {
    if k < j then (k, j) else if j == 0 then IndexToPair(k, 1) else IndexToPair(k - j, j + 1)
  }

  lemma {:induction false} CountDown(k: nat, j: nat)
    ensures var (i, j') := IndexToPair(k, j); i < j' && j <= j' && k + Triangle(j) == Triangle(j') + i
    decreases k - j, k
  {
    if k >= j {
      if j == 0 {
        CountDown(k, 1);
      } else {
        CountDown(k - j, j + 1);
      }
    }
  }

  lemma {:induction false} TriangleGrows(j: nat, j': nat)
    requires j < j'
    ensures Triangle(j) + j <= Triangle(j')
  {
    if j + 1 < j' {
      TriangleGrows(j, j' - 1);
    }
  }

  /** Different pairs have different indices. */
  lemma PairsApart(i: nat, j: nat, i': nat, j': nat)
    requires i < j && i' < j' && PairToIndex(i, j) == PairToIndex(i', j')
    ensures i == i' && j == j'
  {
    TriangleFormula(j);
    TriangleFormula(j');
    if j < j' {
      TriangleGrows(j, j');
    } else if j' < j {
      TriangleGrows(j', j);
    }
  }

  /** The two numberings are inverse to each other. */
  lemma IndexOfPair(k: nat)
    ensures var (i, j) := IndexToPair(k, 0); i < j && PairToIndex(i, j) == k
  {
    var (i, j) := IndexToPair(k, 0);
    CountDown(k, 0);
    TriangleFormula(j);
  }

  lemma PairOfIndex(i: nat, j: nat)
    requires i < j
    ensures PairToIndex(i, j) >= 0 && IndexToPair(PairToIndex(i, j), 0) == (i, j)
  {
    TriangleFormula(j);
    var k := PairToIndex(i, j);
    var (i', j') := IndexToPair(k, 0);
    IndexOfPair(k);
    PairsApart(i, j, i', j');
  }

  /** The pairs of n vertices take exactly the indices below n (n - 1) / 2. */
  lemma IndexRange(i: nat, j: nat, n: nat)
    requires i < j
    ensures j < n <==> PairToIndex(i, j) < PairToIndex(0, n)
  {
    TriangleFormula(j);
    TriangleFormula(n);
    if j < n {
      TriangleGrows(j, n);
    } else if n < j {
      TriangleGrows(n, j);
    }
  }
}
