/**
 Automatic differentiation of a functor over parameter blocks: seeding one jet per parameter, running
 the functor, and extracting values and block Jacobians. Seeding, unpacking and extraction each count
 their own offsets, which must agree.
 */
module AutoDiff {
  import opened Options
  import opened Jets

  // ----- Offsets

  /** The sum of the first i block sizes. */
  ghost function Prefix(ns: seq<nat>, i: nat): nat
    requires i <= |ns|
  {
    if i == 0 then 0 else Prefix(ns, i - 1) + ns[i - 1]
  }

  /** The sum of all sizes, stripped off four, two or one at a time. */
  function SumImpl(ns: seq<nat>): nat {
    if |ns| >= 4 then ns[0] + ns[1] + ns[2] + ns[3] + SumImpl(ns[4..])
    else if |ns| >= 2 then ns[0] + ns[1] + SumImpl(ns[2..])
    else if |ns| == 1 then ns[0]
    else 0
  }

  lemma {:induction false} PrefixSplit(ns: seq<nat>, k: nat, i: nat)
    requires k <= i <= |ns|
    ensures Prefix(ns, i) == Prefix(ns, k) + Prefix(ns[k..], i - k)
  {
    if i > k {
      PrefixSplit(ns, k, i - 1);
    }
  }

  lemma {:induction false} SumIsPrefix(ns: seq<nat>)
    ensures SumImpl(ns) == Prefix(ns, |ns|)
  {
    if |ns| >= 4 {
      SumIsPrefix(ns[4..]);
      PrefixSplit(ns, 4, |ns|);
      FirstFour(ns);
    } else if |ns| >= 2 {
      SumIsPrefix(ns[2..]);
      PrefixSplit(ns, 2, |ns|);
      FirstTwo(ns);
    } else if |ns| == 1 {
      assert Prefix(ns, 1) == Prefix(ns, 0) + ns[0];
    }
  }

  lemma FirstTwo(ns: seq<nat>)
    requires |ns| >= 2
    ensures Prefix(ns, 2) == ns[0] + ns[1]
  {
    assert Prefix(ns, 1) == Prefix(ns, 0) + ns[0];
  }

  lemma FirstFour(ns: seq<nat>)
    requires |ns| >= 4
    ensures Prefix(ns, 4) == ns[0] + ns[1] + ns[2] + ns[3]
  {
    FirstTwo(ns);
    assert Prefix(ns, 3) == Prefix(ns, 2) + ns[2];
  }

  function ExclusiveScanImpl(sum: nat, ns: seq<nat>, rs: seq<nat>): seq<nat>
    decreases |ns|
  {
    if ns == [] then rs else ExclusiveScanImpl(sum + ns[0], ns[1..], rs + [sum])
  }

  /** Where each block starts in the packed parameters. */
  function ExclusiveScan(ns: seq<nat>): seq<nat> {
    ExclusiveScanImpl(0, ns, [])
  }

  lemma {:induction false} ScanImplIsPrefix(sum: nat, ns: seq<nat>, rs: seq<nat>)
    ensures var out := ExclusiveScanImpl(sum, ns, rs);
            && |out| == |rs| + |ns| && out[..|rs|] == rs
            && forall i :: 0 <= i < |ns| ==> out[|rs| + i] == sum + Prefix(ns, i)
    decreases |ns|
  {
    if ns != [] {
      var out := ExclusiveScanImpl(sum, ns, rs);
      ScanImplIsPrefix(sum + ns[0], ns[1..], rs + [sum]);
      assert out[|rs|] == out[..|rs| + 1][|rs|] == sum;
      assert out[..|rs|] == out[..|rs| + 1][..|rs|] == rs;
      forall i | 0 <= i < |ns| ensures out[|rs| + i] == sum + Prefix(ns, i) {
        if i > 0 {
          PrefixSplit(ns, 1, i);
          assert Prefix(ns, 1) == Prefix(ns, 0) + ns[0];
          assert out[|rs| + 1 + (i - 1)] == sum + ns[0] + Prefix(ns[1..], i - 1);
        }
      }
    }
  }

  /** The exclusive scan lists the prefix sums. */
  lemma ScanIsPrefix(ns: seq<nat>)
    ensures |ExclusiveScan(ns)| == |ns|
    ensures forall i :: 0 <= i < |ns| ==> ExclusiveScan(ns)[i] == Prefix(ns, i)
  {
    ScanImplIsPrefix(0, ns, []);
  }

  lemma {:induction false} PrefixMonotone(ns: seq<nat>, i: nat, j: nat)
    requires i < j <= |ns|
    ensures Prefix(ns, i) + ns[i] <= Prefix(ns, j)
  {
    if i + 1 < j {
      PrefixMonotone(ns, i, j - 1);
    }
  }

  // ----- Seeding

  ghost predicate SameShape(params: Blocks, ns: seq<nat>) {
    |params| == |ns| && forall b :: 0 <= b < |ns| ==> |params[b]| == ns[b]
  }

  /** Writes one block of variables, from entry j on, behind the first offset jets. */
  method Make1stOrderPerturbation(src: seq<real>, x: array<Jet>, offset: nat, j: nat)
    requires j <= |src| && offset + |src| <= x.Length
    modifies x
    ensures forall p :: 0 <= p < x.Length ==>
      x[p] == if offset + j <= p < offset + |src| then Variable(src[p - offset], p) else old(x[p])
    decreases |src| - j
  {
    if j < |src| {
      x[offset + j] := Variable(src[j], j + offset);
      Make1stOrderPerturbation(src, x, offset, j + 1);
    }
  }

  /** Block b is seeded at its prefix sum. */
  ghost predicate BlockSeeded(params: Blocks, ns: seq<nat>, packed: seq<Jet>, b: nat)
    requires SameShape(params, ns) && b < |ns|
  {
    && Prefix(ns, b) + ns[b] <= |packed|
    && forall j :: 0 <= j < ns[b] ==> packed[Prefix(ns, b) + j] == Variable(params[b][j], Prefix(ns, b) + j)
  }

  method Make1stOrderPerturbations(params: Blocks, ns: seq<nat>, x: array<Jet>, parameterIdx: nat, offset: nat)
    requires SameShape(params, ns) && parameterIdx <= |ns| && offset == Prefix(ns, parameterIdx) && x.Length == Prefix(ns, |ns|)
    modifies x
    ensures forall p :: 0 <= p < offset && p < x.Length ==> x[p] == old(x[p])
    ensures forall b :: parameterIdx <= b < |ns| ==> BlockSeeded(params, ns, x[..], b)
    decreases |ns| - parameterIdx
  {
    if parameterIdx < |ns| {
      PrefixMonotone(ns, parameterIdx, |ns|);
      Make1stOrderPerturbation(params[parameterIdx], x, offset, 0);
      assert BlockSeeded(params, ns, x[..], parameterIdx);
      label seeded:
      Make1stOrderPerturbations(params, ns, x, parameterIdx + 1, offset + ns[parameterIdx]);
      assert BlockSeeded(params, ns, x[..], parameterIdx) by {
        assert old@seeded(BlockSeeded(params, ns, x[..], parameterIdx));
      }
    }
  }

  lemma SeededByPrefixes(params: Blocks, ns: seq<nat>, packed: seq<Jet>, pointers: seq<nat>)
    requires SameShape(params, ns) && pointers == ExclusiveScan(ns)
    requires forall b :: 0 <= b < |ns| ==> BlockSeeded(params, ns, packed, b)
    ensures Seeded(params, packed, pointers)
  {
    ScanIsPrefix(ns);
    forall b, j | InBlocks(params, b, j)
      ensures pointers[b] + j < |packed| && packed[pointers[b] + j] == Variable(params[b][j], pointers[b] + j)
    {
      assert BlockSeeded(params, ns, packed, b);
    }
    forall b, j, b', j' | InBlocks(params, b, j) && InBlocks(params, b', j') && (b, j) != (b', j')
      ensures pointers[b] + j != pointers[b'] + j'
    {
      if b < b' {
        PrefixMonotone(ns, b, b');
      } else if b' < b {
        PrefixMonotone(ns, b', b);
      }
    }
  }

  // ----- Extraction

  method Take0thOrderPart(src: array<Jet>, dst: array<real>)
    requires src.Length <= dst.Length
    modifies dst
    ensures forall i :: 0 <= i < dst.Length ==> dst[i] == if i < src.Length then src[i].a else old(dst[i])
  {
    for i := 0 to src.Length
      invariant forall k :: 0 <= k < dst.Length ==> dst[k] == if k < i then src[k].a else old(dst[k])
    {
      dst[i] := src[i].a;
    }
  }

  /** Where entry (i, c) of a row-major matrix with n columns is stored. */
  function At(n: nat, i: nat, c: nat): (p: nat)
    ensures p == i * n + c
  {
    n * i + c
  }

  lemma AtLayout(n: nat, i: nat, c: nat, i': nat, c': nat)
    requires c < n && c' < n
    ensures At(n, i, c) == At(n, i', c') ==> i == i' && c == c'
    ensures i < i' ==> At(n, i, c) < At(n, i', 0)
  {
    if i < i' {
      RowsApart(n, i, c, i');
    } else if i' < i {
      RowsApart(n, i', c', i);
    }
  }

  lemma {:induction false} RowsApart(n: nat, i: nat, c: nat, i': nat)
    requires c < n && i < i'
    ensures At(n, i, c) < At(n, i', 0)
    decreases i'
  {
    assert n * i' == n * (i' - 1) + n;
    if i + 1 < i' {
      RowsApart(n, i, c, i' - 1);
    }
  }

  /** Row i of dst holds the slopes of output i by the n parameters from n0 on. */
  ghost predicate RowTaken(n0: nat, n: nat, src: array<Jet>, dst: array<real>, i: nat)
    requires i < src.Length
    reads src, dst
  {
    At(n, i, n) <= dst.Length && forall c :: 0 <= c < n ==> dst[At(n, i, c)] == src[i].v(n0 + c)
  }

  method Take1stOrderPart(n0: nat, n: nat, src: array<Jet>, dst: array<real>)
    requires dst.Length >= At(n, src.Length, 0)
    modifies dst
    ensures forall i :: 0 <= i < src.Length ==> RowTaken(n0, n, src, dst, i)
  {
    for i := 0 to src.Length
      invariant forall k :: 0 <= k < i ==> RowTaken(n0, n, src, dst, k)
    {
      TakeRow(n0, n, src, dst, i);
    }
  }

  method TakeRow(n0: nat, n: nat, src: array<Jet>, dst: array<real>, i: nat)
    requires i < src.Length && dst.Length >= At(n, src.Length, 0)
    requires forall k :: 0 <= k < i ==> RowTaken(n0, n, src, dst, k)
    modifies dst
    ensures forall k :: 0 <= k <= i ==> RowTaken(n0, n, src, dst, k)
  {
    RowFits(n, i, src.Length);
    var base := At(n, i, 0);
    for c := 0 to n
      invariant forall p :: 0 <= p < base ==> dst[p] == old(dst[p])
      invariant forall p :: base <= p < base + c ==> dst[p] == src[i].v(n0 + p - base)
    {
      dst[base + c] := src[i].v(n0 + c);
    }
    forall k | 0 <= k < i ensures RowTaken(n0, n, src, dst, k) {
      assert old(RowTaken(n0, n, src, dst, k));
      forall c | 0 <= c < n ensures At(n, k, c) < base {
        AtLayout(n, k, c, i, 0);
      }
    }
  }

  lemma {:induction false} RowFits(n: nat, i: nat, m: nat)
    requires i < m
    ensures At(n, i, n) <= At(n, m, 0)
  {
    assert n * m == n * (m - 1) + n;
    if i + 1 < m {
      RowFits(n, i, m - 1);
    }
  }

  /** The output arrays are large enough for m rows and do not overlap; a missing one is skipped. */
  ghost predicate Targets(ns: seq<nat>, m: nat, jacobians: seq<array?<real>>) {
    && |jacobians| == |ns|
    && (forall b :: 0 <= b < |ns| && jacobians[b] != null ==> jacobians[b].Length >= At(ns[b], m, 0))
    && (forall b, b' :: 0 <= b < b' < |ns| && jacobians[b] != null ==> jacobians[b] != jacobians[b'])
  }

  ghost predicate BlockTaken(ns: seq<nat>, src: array<Jet>, jacobians: seq<array?<real>>, b: nat)
    requires |jacobians| == |ns| && b < |ns|
    reads src, jacobians
  {
    jacobians[b] != null ==> forall i :: 0 <= i < src.Length ==> RowTaken(Prefix(ns, b), ns[b], src, jacobians[b], i)
  }

  method Take1stOrderParts(ns: seq<nat>, src: array<Jet>, jacobians: seq<array?<real>>, parameterIdx: nat, offset: nat)
    requires Targets(ns, src.Length, jacobians) && parameterIdx <= |ns| && offset == Prefix(ns, parameterIdx)
    modifies set b | parameterIdx <= b < |jacobians| :: jacobians[b]
    ensures forall b :: parameterIdx <= b < |ns| ==> BlockTaken(ns, src, jacobians, b)
    decreases |ns| - parameterIdx
  {
    if parameterIdx < |ns| {
      if jacobians[parameterIdx] != null {
        Take1stOrderPart(offset, ns[parameterIdx], src, jacobians[parameterIdx]);
      }
      assert BlockTaken(ns, src, jacobians, parameterIdx);
      label taken:
      Take1stOrderParts(ns, src, jacobians, parameterIdx + 1, offset + ns[parameterIdx]);
      assert BlockTaken(ns, src, jacobians, parameterIdx) by {
        if jacobians[parameterIdx] != null {
          forall i | 0 <= i < src.Length ensures RowTaken(offset, ns[parameterIdx], src, jacobians[parameterIdx], i) {
            assert old@taken(RowTaken(offset, ns[parameterIdx], src, jacobians[parameterIdx], i));
          }
        }
      }
    }
  }

  // ----- Differentiating a functor

  /** The outputs of a functor, and whether it reports success. */
  datatype Functor = Functor(outputs: seq<Expr>, succeeds: bool)

  ghost predicate Defined(functor: Functor, params: Blocks) {
    forall i :: 0 <= i < |functor.outputs| ==> Eval(functor.outputs[i], params).Some?
  }

  /** What a row of the Jacobian of block b has to contain. */
  ghost predicate IsJacobianRow(e: Expr, params: Blocks, b: nat, jacobian: array<real>, i: nat)
    requires b < |params|
    reads jacobian
  {
    && At(|params[b]|, i, |params[b]|) <= jacobian.Length
    && forall c :: 0 <= c < |params[b]| ==> IsDerivative(e, params, b, c, jacobian[At(|params[b]|, i, c)])
  }

  method EvaluateOnJets(functor: Functor, packed: seq<Jet>, pointers: seq<nat>, residuals: array<Jet>,
                        ghost params: Blocks)
    requires Seeded(params, packed, pointers) && Defined(functor, params) && residuals.Length == |functor.outputs|
    modifies residuals
    ensures forall i :: 0 <= i < residuals.Length ==> JetEval(functor.outputs[i], packed, pointers) == Some(residuals[i])
  {
    for i := 0 to residuals.Length
      invariant forall k :: 0 <= k < i ==> JetEval(functor.outputs[k], packed, pointers) == Some(residuals[k])
    {
      JetsEvaluate(functor.outputs[i], params, packed, pointers);
      residuals[i] := JetEval(functor.outputs[i], packed, pointers).value;
    }
  }

  /** Values, and one Jacobian per parameter block that asks for it: all derivatives are exact. */
  method AutoDifferentiate(functor: Functor, params: Blocks, ns: seq<nat>, functionValue: array<real>,
                           jacobians: seq<array?<real>>) returns (ok: bool)
    requires SameShape(params, ns) && (functor.succeeds ==> Defined(functor, params))
    requires Targets(ns, |functor.outputs|, jacobians) && functionValue.Length >= |functor.outputs|
    requires forall b :: 0 <= b < |ns| ==> jacobians[b] != functionValue
    modifies functionValue, set b | 0 <= b < |jacobians| :: jacobians[b]
    ensures ok == functor.succeeds
    ensures !ok ==> functionValue[..] == old(functionValue[..])
    ensures !ok ==> forall b :: 0 <= b < |ns| && jacobians[b] != null ==> jacobians[b][..] == old(jacobians[b][..])
    ensures ok ==> forall i :: 0 <= i < |functor.outputs| ==> Eval(functor.outputs[i], params) == Some(functionValue[i])
    ensures ok ==> forall b, i :: 0 <= b < |ns| && jacobians[b] != null && 0 <= i < |functor.outputs| ==>
      IsJacobianRow(functor.outputs[i], params, b, jacobians[b], i)
  {
    SumIsPrefix(ns);
    var x := new Jet[SumImpl(ns)](_ => Constant(0.0));
    var pointers := ExclusiveScan(ns);
    var residuals := new Jet[|functor.outputs|](_ => Constant(0.0));
    Make1stOrderPerturbations(params, ns, x, 0, 0);
    if !functor.succeeds {
      return false;
    }
    SeededByPrefixes(params, ns, x[..], pointers);
    EvaluateOnJets(functor, x[..], pointers, residuals, params);
    Take0thOrderPart(residuals, functionValue);
    Take1stOrderParts(ns, residuals, jacobians, 0, 0);
    ValuesExact(functor, params, x[..], pointers, residuals, functionValue);
    forall b, i | 0 <= b < |ns| && jacobians[b] != null && 0 <= i < |functor.outputs|
      ensures IsJacobianRow(functor.outputs[i], params, b, jacobians[b], i)
    {
      assert BlockTaken(ns, residuals, jacobians, b);
      RowExact(functor.outputs[i], params, ns, x[..], pointers, residuals, jacobians[b], b, i);
    }
    return true;
  }

  lemma ValuesExact(functor: Functor, params: Blocks, packed: seq<Jet>, pointers: seq<nat>, residuals: array<Jet>,
                    functionValue: array<real>)
    requires Seeded(params, packed, pointers) && Defined(functor, params)
    requires residuals.Length == |functor.outputs| <= functionValue.Length
    requires forall i :: 0 <= i < residuals.Length ==> JetEval(functor.outputs[i], packed, pointers) == Some(residuals[i])
    requires forall i :: 0 <= i < residuals.Length ==> functionValue[i] == residuals[i].a
    ensures forall i :: 0 <= i < |functor.outputs| ==> Eval(functor.outputs[i], params) == Some(functionValue[i])
  {
    forall i | 0 <= i < |functor.outputs| ensures Eval(functor.outputs[i], params) == Some(functionValue[i]) {
      JetsEvaluate(functor.outputs[i], params, packed, pointers);
    }
  }

  lemma RowExact(e: Expr, params: Blocks, ns: seq<nat>, packed: seq<Jet>, pointers: seq<nat>, residuals: array<Jet>,
                 jacobian: array<real>, b: nat, i: nat)
    requires SameShape(params, ns) && Seeded(params, packed, pointers) && pointers == ExclusiveScan(ns) && Eval(e, params).Some?
    requires b < |ns| && i < residuals.Length && JetEval(e, packed, pointers) == Some(residuals[i])
    requires RowTaken(Prefix(ns, b), ns[b], residuals, jacobian, i)
    ensures IsJacobianRow(e, params, b, jacobian, i)
  {
    hide Eval, JetEval, Seeded, Approximates;
    ScanIsPrefix(ns);
    forall c | 0 <= c < ns[b] ensures IsDerivative(e, params, b, c, jacobian[At(ns[b], i, c)]) {
      var germ := JetsDifferentiate(e, params, packed, pointers, b, c);
      assert jacobian[At(ns[b], i, c)] == residuals[i].v(Prefix(ns, b) + c) == germ.slope;
      assert germ == Germ(germ.value, germ.slope, germ.bound, germ.radius);
    }
  }
}
