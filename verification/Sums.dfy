/** Finite sums of real-valued functions over integer ranges, and the laws the other modules need. */
module Sums {

  /** f(lo) + ... + f(hi - 1); zero for an empty range. */
  function Sum(lo: int, hi: int, f: int -> real): real
    decreases hi - lo
  {
    if hi <= lo then 0.0 else Sum(lo, hi - 1, f) + f(hi - 1)
  }

  lemma {:induction false} SumCong(lo: int, hi: int, f: int -> real, g: int -> real)
    requires forall k :: lo <= k < hi ==> f(k) == g(k)
    ensures Sum(lo, hi, f) == Sum(lo, hi, g)
    decreases hi - lo
  {
    if lo < hi {
      SumCong(lo, hi - 1, f, g);
    }
  }

  lemma {:induction false} SumZero(lo: int, hi: int, f: int -> real)
    requires forall k :: lo <= k < hi ==> f(k) == 0.0
    ensures Sum(lo, hi, f) == 0.0
    decreases hi - lo
  {
    if lo < hi {
      SumZero(lo, hi - 1, f);
    }
  }

  lemma {:induction false} SumAdd(lo: int, hi: int, f: int -> real, g: int -> real, h: int -> real)
    requires forall k :: lo <= k < hi ==> h(k) == f(k) + g(k)
    ensures Sum(lo, hi, h) == Sum(lo, hi, f) + Sum(lo, hi, g)
    decreases hi - lo
  {
    if lo < hi {
      SumAdd(lo, hi - 1, f, g, h);
    }
  }

  lemma {:induction false} SumScale(lo: int, hi: int, c: real, f: int -> real, h: int -> real)
    requires forall k :: lo <= k < hi ==> h(k) == c * f(k)
    ensures Sum(lo, hi, h) == c * Sum(lo, hi, f)
    decreases hi - lo
  {
    if lo < hi {
      SumScale(lo, hi - 1, c, f, h);
      assert c * Sum(lo, hi, f) == c * Sum(lo, hi - 1, f) + c * f(hi - 1);
    }
  }

  lemma {:induction false} SumSplit(lo: int, mid: int, hi: int, f: int -> real)
    requires lo <= mid <= hi
    ensures Sum(lo, hi, f) == Sum(lo, mid, f) + Sum(mid, hi, f)
    decreases hi - mid
  {
    if mid < hi {
      SumSplit(lo, mid, hi - 1, f);
    }
  }

  /** All terms but the one at p vanish. */
  lemma SumSingle(lo: int, hi: int, p: int, f: int -> real)
    requires lo <= p < hi
    requires forall k :: lo <= k < hi && k != p ==> f(k) == 0.0
    ensures Sum(lo, hi, f) == f(p)
  {
    SumSplit(lo, p, hi, f);
    SumSplit(p, p + 1, hi, f);
    SumZero(lo, p, f);
    SumZero(p + 1, hi, f);
    assert Sum(p, p + 1, f) == Sum(p, p, f) + f(p);
  }

  /** now = before + last, where last vanishes except at p. */
  lemma SumPeel(n: int, before: int -> real, last: int -> real, now: int -> real, p: int)
    requires 0 <= p < n
    requires forall i :: 0 <= i < n ==> now(i) == before(i) + last(i)
    requires forall i :: 0 <= i < n && i != p ==> last(i) == 0.0
    ensures Sum(0, n, now) == Sum(0, n, before) + last(p)
  {
    SumAdd(0, n, before, last, now);
    SumSingle(0, n, p, last);
  }

  lemma {:induction false} SumShift(lo: int, hi: int, d: int, f: int -> real, g: int -> real)
    requires forall k :: lo <= k < hi ==> g(k) == f(k + d)
    ensures Sum(lo, hi, g) == Sum(lo + d, hi + d, f)
    decreases hi - lo
  {
    if lo < hi {
      SumShift(lo, hi - 1, d, f, g);
    }
  }

  lemma {:induction false} SumNonNegative(lo: int, hi: int, f: int -> real)
    requires forall k :: lo <= k < hi ==> f(k) >= 0.0
    ensures Sum(lo, hi, f) >= 0.0
    decreases hi - lo
  {
    if lo < hi {
      SumNonNegative(lo, hi - 1, f);
    }
  }

  /** Exchanging the order of a double sum. */
  lemma {:induction false} SumSwap(a: int, b: int, c: int, d: int, F: (int, int) -> real,
                                   rows: int -> real, cols: int -> real)
    requires forall i :: a <= i < b ==> rows(i) == Sum(c, d, j => F(i, j))
    requires forall j :: c <= j < d ==> cols(j) == Sum(a, b, i => F(i, j))
    ensures Sum(a, b, rows) == Sum(c, d, cols)
    decreases b - a
  {
    if b <= a {
      SumZero(c, d, cols);
    } else {
      var cols' := j => Sum(a, b - 1, i => F(i, j));
      SumSwap(a, b - 1, c, d, F, rows, cols');
      forall j | c <= j < d
        ensures cols(j) == cols'(j) + (j => F(b - 1, j))(j)
      {
        SumCong(a, b - 1, i => F(i, j), i => F(i, j));
      }
      SumAdd(c, d, cols', j => F(b - 1, j), cols);
      assert rows(b - 1) == Sum(c, d, j => F(b - 1, j));
    }
  }

  /** s lists 0..n-1, each exactly once. */
  ghost predicate IsPermutation(s: seq<int>, n: nat)
  {
    && |s| == n
    && (forall i :: 0 <= i < n ==> 0 <= s[i] < n)
    && (forall i, j :: 0 <= i < j < n ==> s[i] != s[j])
  }

  lemma Pick<T>(xs: set<T>) returns (x: T)
    requires xs != {}
    ensures x in xs
  {
    x :| x in xs;
  }

  lemma {:induction false} BoundedCard(n: nat, xs: set<int>)
    requires forall x :: x in xs ==> 0 <= x < n
    ensures |xs| <= n
  {
    if n == 0 {
      if xs != {} {
        var x := Pick(xs);
        assert false;
      }
    } else {
      BoundedCard(n - 1, xs - {n - 1});
    }
  }

  lemma {:induction false} ImageCard(s: seq<int>, image: set<int>)
    requires forall i, j :: 0 <= i < j < |s| ==> s[i] != s[j]
    requires forall x :: x in image <==> x in s
    ensures |image| == |s|
  {
    if s == [] {
      if image != {} {
        var x := Pick(image);
        assert false;
      }
    } else {
      var last := s[|s| - 1];
      var front := s[..|s| - 1];
      assert last !in front;
      assert s == front + [last];
      ImageCard(front, image - {last});
    }
  }

  /** An injective list of n numbers below n reaches every one of them. */
  lemma PermutationIsOnto(s: seq<int>, n: nat, i: int)
    requires IsPermutation(s, n) && 0 <= i < n
    ensures exists k :: 0 <= k < n && s[k] == i
  {
    var image := set x | x in s;
    ImageCard(s, image);
    if i !in image {
      BoundedCard(n, image + {i});
      assert false;
    }
  }

  /** A sum does not depend on the order in which a permutation visits its terms. */
  lemma SumPermutation(s: seq<int>, n: nat, f: int -> real, g: int -> real)
    requires IsPermutation(s, n)
    requires forall k :: 0 <= k < n ==> g(k) == f(s[k])
    ensures Sum(0, n, g) == Sum(0, n, f)
  {
    var hit := (k: int, i: int) => if 0 <= k < n && s[k] == i then f(i) else 0.0;
    forall k | 0 <= k < n
      ensures g(k) == Sum(0, n, i => hit(k, i))
    {
      SumSingle(0, n, s[k], i => hit(k, i));
    }
    forall i | 0 <= i < n
      ensures f(i) == Sum(0, n, k => hit(k, i))
    {
      PermutationIsOnto(s, n, i);
      var k :| 0 <= k < n && s[k] == i;
      SumSingle(0, n, k, k => hit(k, i));
    }
    SumSwap(0, n, 0, n, hit, g, f);
  }
}
