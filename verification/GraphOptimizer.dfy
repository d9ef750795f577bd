/**
 The active part of the graph: vertices with their backup stacks, the index mapping that orders the
 free vertices in the linear system, and the offsets at which they read and write its vectors.
 */
module GraphOptimizer {
  import opened LinearAlgebra

  /** The parameters a vertex estimates. */
  type Estimate = seq<real>

  class Vertex {
    const dimension: nat
    const fixed: bool
    const marginalized: bool
    /** Applies an increment of length dimension to an estimate. */
    const plus: (Estimate, seq<real>) -> Estimate

    var hessianIndex: int
    var colInHessian: int
    var estimate: Estimate
    var backup: seq<Estimate>
    /** The vertex's part of the right hand side. */
    var rhs: Vector

    constructor (dimension: nat, fixed: bool, marginalized: bool, plus: (Estimate, seq<real>) -> Estimate, estimate: Estimate)
      ensures this.dimension == dimension && this.fixed == fixed && this.marginalized == marginalized && this.plus == plus
      ensures this.estimate == estimate && backup == [] && hessianIndex == colInHessian == -1
    {
      this.dimension, this.fixed, this.marginalized, this.plus := dimension, fixed, marginalized, plus;
      this.estimate, backup, hessianIndex, colInHessian, rhs := estimate, [], -1, -1, i => 0.0;
    }

    method Push()
      modifies this`backup
      ensures backup == old(backup) + [estimate]
    {
      backup := backup + [estimate];
    }

    method Pop()
      requires backup != []
      modifies this`estimate, this`backup
      ensures old(backup) == backup + [estimate]
    {
      estimate := backup[|backup| - 1];
      backup := backup[..|backup| - 1];
    }

    method DiscardTop()
      requires backup != []
      modifies this`backup
      ensures backup == old(backup[..|backup| - 1])
    {
      backup := backup[..|backup| - 1];
    }

    method Oplus(update: seq<real>)
      modifies this`estimate
      ensures estimate == plus(old(estimate), update)
    {
      estimate := plus(estimate, update);
    }
  }

  ghost predicate Distinct(vs: seq<Vertex>) {
    forall i, j :: 0 <= i < j < |vs| ==> vs[i] != vs[j]
  }

  function Estimates(vs: seq<Vertex>): (r: seq<Estimate>)
    reads vs`estimate
    ensures |r| == |vs| && forall i :: 0 <= i < |vs| ==> r[i] == vs[i].estimate
  {
    if vs == [] then [] else Estimates(vs[..|vs| - 1]) + [vs[|vs| - 1].estimate]
  }

  /** The vertices' parts of the right hand side. */
  ghost function RightHandSides(vs: seq<Vertex>): (r: seq<Vector>)
    reads vs`rhs
    ensures |r| == |vs| && forall i :: 0 <= i < |vs| ==> r[i] == vs[i].rhs
  {
    if vs == [] then [] else RightHandSides(vs[..|vs| - 1]) + [vs[|vs| - 1].rhs]
  }

  ghost function Backups(vs: seq<Vertex>): seq<seq<Estimate>>
    reads vs
  {
    seq(|vs|, i requires 0 <= i < |vs| reads vs => vs[i].backup)
  }

  // ----- The order of the free vertices

  /** The free vertices of one kind, in the order of the list. */
  ghost function Restrict(vlist: seq<Vertex>, marginalized: bool): seq<Vertex> {
    if vlist == [] then [] else
      var v := vlist[|vlist| - 1];
      Restrict(vlist[..|vlist| - 1], marginalized) + if !v.fixed && v.marginalized == marginalized then [v] else []
  }

  /** Free poses first, then free landmarks. */
  ghost function IndexMapping(vlist: seq<Vertex>): seq<Vertex> {
    Restrict(vlist, false) + Restrict(vlist, true)
  }

  lemma {:induction false} RestrictMembers(vlist: seq<Vertex>, marginalized: bool, v: Vertex)
    ensures v in Restrict(vlist, marginalized) <==> v in vlist && !v.fixed && v.marginalized == marginalized
  {
    if vlist != [] {
      RestrictMembers(vlist[..|vlist| - 1], marginalized, v);
      assert vlist == vlist[..|vlist| - 1] + [vlist[|vlist| - 1]];
    }
  }

  lemma {:induction false} RestrictDistinct(vlist: seq<Vertex>, marginalized: bool)
    requires Distinct(vlist)
    ensures Distinct(Restrict(vlist, marginalized))
  {
    if vlist != [] {
      var front, v := vlist[..|vlist| - 1], vlist[|vlist| - 1];
      RestrictDistinct(front, marginalized);
      RestrictMembers(front, marginalized, v);
    }
  }

  ghost predicate PosesFirst(ivMap: seq<Vertex>) {
    forall i, j :: 0 <= i < j < |ivMap| && ivMap[i].marginalized ==> ivMap[j].marginalized
  }

  /** The mapping lists every free vertex once, and poses before landmarks. */
  lemma IndexMappingIsBijection(vlist: seq<Vertex>)
    requires Distinct(vlist)
    ensures Distinct(IndexMapping(vlist))
    ensures forall v :: v in IndexMapping(vlist) <==> v in vlist && !v.fixed
    ensures PosesFirst(IndexMapping(vlist))
  {
    var poses, landmarks := Restrict(vlist, false), Restrict(vlist, true);
    RestrictDistinct(vlist, false);
    RestrictDistinct(vlist, true);
    forall v ensures v in IndexMapping(vlist) <==> v in vlist && !v.fixed {
      RestrictMembers(vlist, false, v);
      RestrictMembers(vlist, true, v);
    }
    forall i | 0 <= i < |poses| ensures !poses[i].marginalized {
      RestrictMembers(vlist, false, poses[i]);
    }
    forall i | 0 <= i < |landmarks| ensures landmarks[i].marginalized {
      RestrictMembers(vlist, true, landmarks[i]);
    }
  }

  ghost predicate Numbered(ivMap: seq<Vertex>)
    reads ivMap
  {
    forall i :: 0 <= i < |ivMap| ==> ivMap[i].hessianIndex == i
  }

  // ----- Offsets into the vectors of the linear system

  /** Where the slice of vertex i starts when slices follow each other in the order of the mapping. */
  function Offset(ivMap: seq<Vertex>, i: nat): nat
    requires i <= |ivMap|
  {
    if i == 0 then 0 else Offset(ivMap, i - 1) + ivMap[i - 1].dimension
  }

  /** The total dimension of the vertices of one kind before position i. */
  ghost function PartSize(ivMap: seq<Vertex>, i: nat, marginalized: bool): nat
    requires i <= |ivMap|
  {
    if i == 0 then 0
    else PartSize(ivMap, i - 1, marginalized) + if ivMap[i - 1].marginalized == marginalized then ivMap[i - 1].dimension else 0
  }

  lemma {:induction false} PartsMakeWhole(ivMap: seq<Vertex>, i: nat)
    requires i <= |ivMap|
    ensures PartSize(ivMap, i, false) + PartSize(ivMap, i, true) == Offset(ivMap, i)
  {
    if i > 0 {
      PartsMakeWhole(ivMap, i - 1);
    }
  }

  lemma {:induction false} PosesOnly(ivMap: seq<Vertex>, i: nat, n: nat)
    requires i <= n <= |ivMap| && (forall k :: i <= k < n ==> ivMap[k].marginalized)
    ensures PartSize(ivMap, n, false) == PartSize(ivMap, i, false)
  {
    if i < n {
      PosesOnly(ivMap, i, n - 1);
    }
  }

  lemma {:induction false} NoLandmarksYet(ivMap: seq<Vertex>, i: nat)
    requires i <= |ivMap| && (forall k :: 0 <= k < i ==> !ivMap[k].marginalized)
    ensures PartSize(ivMap, i, true) == 0
  {
    if i > 0 {
      NoLandmarksYet(ivMap, i - 1);
    }
  }

  /** The column at which buildSystem stores b for vertex i is where update reads its increment. */
  ghost function Base(ivMap: seq<Vertex>, i: nat): nat
    requires i < |ivMap|
  {
    PartSize(ivMap, i, ivMap[i].marginalized) + if ivMap[i].marginalized then PartSize(ivMap, |ivMap|, false) else 0
  }

  lemma BaseIsOffset(ivMap: seq<Vertex>, i: nat)
    requires PosesFirst(ivMap) && i < |ivMap|
    ensures Base(ivMap, i) == Offset(ivMap, i)
  {
    PartsMakeWhole(ivMap, i);
    if ivMap[i].marginalized {
      PosesOnly(ivMap, i, |ivMap|);
    } else {
      NoLandmarksYet(ivMap, i);
    }
  }

  /** Where the slices of all vertices end, in the order of the mapping. */
  ghost function Ends(ivMap: seq<Vertex>): (r: seq<nat>)
    ensures |r| == |ivMap| && forall i :: 0 <= i < |ivMap| ==> r[i] == Offset(ivMap, i + 1)
  {
    seq(|ivMap|, i requires 0 <= i < |ivMap| => Offset(ivMap, i + 1))
  }

  /** Where the blocks of one kind end, among the first i vertices. */
  ghost function PartEnds(ivMap: seq<Vertex>, i: nat, marginalized: bool): seq<nat>
    requires i <= |ivMap|
  {
    if i == 0 then []
    else
      PartEnds(ivMap, i - 1, marginalized)
      + if ivMap[i - 1].marginalized == marginalized then [PartSize(ivMap, i, marginalized)] else []
  }

  lemma NoPartYet(ivMap: seq<Vertex>, marginalized: bool)
    ensures PartSize(ivMap, 0, marginalized) == 0 && PartEnds(ivMap, 0, marginalized) == []
  {
  }

  lemma PartGrows(ivMap: seq<Vertex>, i: nat, marginalized: bool)
    requires i < |ivMap|
    ensures ivMap[i].marginalized == marginalized ==>
      && PartSize(ivMap, i + 1, marginalized) == PartSize(ivMap, i, marginalized) + ivMap[i].dimension
      && PartEnds(ivMap, i + 1, marginalized) == PartEnds(ivMap, i, marginalized) + [PartSize(ivMap, i + 1, marginalized)]
    ensures ivMap[i].marginalized != marginalized ==>
      && PartSize(ivMap, i + 1, marginalized) == PartSize(ivMap, i, marginalized)
      && PartEnds(ivMap, i + 1, marginalized) == PartEnds(ivMap, i, marginalized)
  {
  }

  lemma {:induction false} PartCounts(ivMap: seq<Vertex>, i: nat)
    requires i <= |ivMap|
    ensures |PartEnds(ivMap, i, false)| + |PartEnds(ivMap, i, true)| == i
  {
    if i > 0 {
      PartCounts(ivMap, i - 1);
    }
  }

  lemma {:induction false} OffsetMonotone(ivMap: seq<Vertex>, i: nat, j: nat)
    requires i < j <= |ivMap|
    ensures Offset(ivMap, i) + ivMap[i].dimension <= Offset(ivMap, j)
  {
    if i + 1 < j {
      OffsetMonotone(ivMap, i, j - 1);
    }
  }

  function ZeroVector(): Vector {
    a => 0.0
  }

  function Segment(x: Vector, from: nat, len: nat): (r: seq<real>)
    ensures |r| == len && forall k :: 0 <= k < len ==> r[k] == x(from + k)
  {
    seq(len, k requires 0 <= k < len => x(from + k))
  }

  /** Vertex i was moved from its former estimate by its slice of the increment. */
  ghost predicate HasMoved(ivMap: seq<Vertex>, i: nat, before: seq<Estimate>, update: Vector)
    requires i < |ivMap| == |before|
    reads ivMap[i]
  {
    ivMap[i].estimate == ivMap[i].plus(before[i], Segment(update, Offset(ivMap, i), ivMap[i].dimension))
  }

  /** after is what becomes of the estimates before when each vertex of the mapping adds its slice of the update. */
  ghost predicate StepTaken(vs: seq<Vertex>, ivMap: seq<Vertex>, before: seq<Estimate>, update: Vector, after: seq<Estimate>) {
    |before| == |after| == |vs| && forall j: nat :: j < |vs| ==> Stepped(vs[j], ivMap, before[j], update, after[j])
  }

  ghost predicate Stepped(v: Vertex, ivMap: seq<Vertex>, before: Estimate, update: Vector, after: Estimate) {
    && (v !in ivMap ==> after == before)
    && forall i: nat :: i < |ivMap| && ivMap[i] == v ==> after == v.plus(before, Segment(update, Offset(ivMap, i), v.dimension))
  }

  ghost predicate ColumnAssigned(ivMap: seq<Vertex>, i: nat)
    requires i < |ivMap|
    reads ivMap`colInHessian
  {
    ivMap[i].colInHessian == PartSize(ivMap, i, ivMap[i].marginalized)
  }

  /** b holds the right hand side of vertex i at the vertex's offset. */
  ghost predicate Copied(ivMap: seq<Vertex>, i: nat, b: array<real>)
    requires i < |ivMap|
    reads ivMap`rhs, b
  {
    && Offset(ivMap, i) + ivMap[i].dimension <= b.Length
    && forall j :: 0 <= j < ivMap[i].dimension ==> b[Offset(ivMap, i) + j] == ivMap[i].rhs(j)
  }

  /** Above its former backups every vertex has saved its estimate in s. */
  ghost predicate Saved(vs: seq<Vertex>, s: seq<Estimate>, stacks: seq<seq<Estimate>>)
    reads vs
  {
    |s| == |stacks| == |vs| && forall i :: 0 <= i < |vs| ==> vs[i].backup == stacks[i] + [s[i]]
  }

  lemma Unstack<T>(xs: seq<T>, x: T, ys: seq<T>, y: T)
    requires xs + [x] == ys + [y]
    ensures xs == ys && x == y
  {
    assert (xs + [x])[|xs|] == x && (ys + [y])[|ys|] == y;
    assert xs == (xs + [x])[..|xs|] == (ys + [y])[..|ys|] == ys;
  }

  class SparseOptimizer {
    var activeVertices: seq<Vertex>
    var ivMap: seq<Vertex>

    constructor (vs: seq<Vertex>)
      ensures activeVertices == vs && ivMap == []
    {
      activeVertices, ivMap := vs, [];
    }

    ghost predicate Valid()
      reads this
    {
      Distinct(activeVertices) && Distinct(ivMap) && forall i :: 0 <= i < |ivMap| ==> ivMap[i] in activeVertices
    }

    /** Gives every free vertex its position; fixed ones get -1. */
    method BuildIndexMapping(vlist: seq<Vertex>) returns (ok: bool)
      requires Distinct(vlist)
      modifies this`ivMap, vlist`hessianIndex
      ensures ok <==> vlist != []
      ensures ivMap == IndexMapping(vlist) && Numbered(ivMap)
      ensures forall v :: v in vlist && v.fixed ==> v.hessianIndex == -1
    {
      ivMap := [];
      if vlist == [] {
        return false;
      }
      NumberVertices(vlist, false);
      forall v | v in ivMap ensures !v.marginalized && !v.fixed {
        RestrictMembers(vlist, false, v);
      }
      NumberVertices(vlist, true);
      return true;
    }

    /** One pass over the list: appends the free vertices of one kind to the mapping. */
    method NumberVertices(vlist: seq<Vertex>, marginalized: bool)
      requires Distinct(vlist) && Numbered(ivMap)
      requires forall v :: v in ivMap ==> v.marginalized != marginalized && !v.fixed
      modifies this`ivMap, vlist`hessianIndex
      ensures ivMap == old(ivMap) + Restrict(vlist, marginalized) && Numbered(ivMap)
      ensures forall v :: v in vlist && v.fixed ==> v.hessianIndex == -1
    {
      ghost var before := ivMap;
      for j := 0 to |vlist|
        invariant ivMap == before + Restrict(vlist[..j], marginalized) && Numbered(ivMap)
        invariant forall i :: 0 <= i < j && vlist[i].fixed ==> vlist[i].hessianIndex == -1
      {
        assert vlist[..j + 1][..j] == vlist[..j];
        RestrictMembers(vlist[..j], marginalized, vlist[j]);
        NumberVertex(vlist[j], marginalized);
      }
      assert vlist[..|vlist|] == vlist;
    }

    method NumberVertex(v: Vertex, marginalized: bool)
      requires Numbered(ivMap) && (v.fixed || v.marginalized == marginalized ==> v !in ivMap)
      modifies this`ivMap, v`hessianIndex
      ensures Numbered(ivMap)
      ensures ivMap == old(ivMap) + if !v.fixed && v.marginalized == marginalized then [v] else []
      ensures v.fixed ==> v.hessianIndex == -1
      ensures !v.fixed && v.marginalized != marginalized ==> v.hessianIndex == old(v.hessianIndex)
    {
      if v.fixed {
        v.hessianIndex := -1;
      } else if v.marginalized == marginalized {
        v.hessianIndex := |ivMap|;
        ivMap := ivMap + [v];
      }
    }

    /** The columns of the vertices, and where their blocks end, counted separately for poses and landmarks. */
    method AssignColumns() returns (sizePoses: nat, sizeLandmarks: nat, poseEnds: seq<nat>, landmarkEnds: seq<nat>)
      requires Distinct(ivMap)
      modifies ivMap`colInHessian
      ensures sizePoses == PartSize(ivMap, |ivMap|, false) && sizeLandmarks == PartSize(ivMap, |ivMap|, true)
      ensures poseEnds == PartEnds(ivMap, |ivMap|, false) && landmarkEnds == PartEnds(ivMap, |ivMap|, true)
      ensures forall i :: 0 <= i < |ivMap| ==> ColumnAssigned(ivMap, i)
    {
      hide PartSize, PartEnds;
      NoPartYet(ivMap, false);
      NoPartYet(ivMap, true);
      sizePoses, sizeLandmarks := 0, 0;
      var blockPoseIndices, blockLandmarkIndices := new nat[|ivMap|], new nat[|ivMap|];
      var numPoses, numLandmarks := 0, 0;
      for i := 0 to |ivMap|
        invariant numPoses + numLandmarks == i
        invariant sizePoses == PartSize(ivMap, i, false) && sizeLandmarks == PartSize(ivMap, i, true)
        invariant blockPoseIndices[..numPoses] == PartEnds(ivMap, i, false)
        invariant blockLandmarkIndices[..numLandmarks] == PartEnds(ivMap, i, true)
        invariant forall k :: 0 <= k < i ==> ColumnAssigned(ivMap, k)
      {
        var v := ivMap[i];
        PartGrows(ivMap, i, false);
        PartGrows(ivMap, i, true);
        if !v.marginalized {
          SetColInHessian(i, sizePoses);
          sizePoses := sizePoses + v.dimension;
          blockPoseIndices[numPoses] := sizePoses;
          numPoses := numPoses + 1;
        } else {
          SetColInHessian(i, sizeLandmarks);
          sizeLandmarks := sizeLandmarks + v.dimension;
          blockLandmarkIndices[numLandmarks] := sizeLandmarks;
          numLandmarks := numLandmarks + 1;
        }
      }
      poseEnds, landmarkEnds := blockPoseIndices[..numPoses], blockLandmarkIndices[..numLandmarks];
    }

    method SetColInHessian(i: nat, column: nat)
      requires i < |ivMap| && Distinct(ivMap) && column == PartSize(ivMap, i, ivMap[i].marginalized)
      requires forall k :: 0 <= k < i ==> ColumnAssigned(ivMap, k)
      modifies ivMap`colInHessian
      ensures forall k :: 0 <= k < i + 1 ==> ColumnAssigned(ivMap, k)
    {
      hide PartSize;
      ivMap[i].colInHessian := column;
      forall k | 0 <= k < i ensures ColumnAssigned(ivMap, k) {
        assert old(ColumnAssigned(ivMap, k)) && ivMap[k] != ivMap[i];
      }
    }

    /** Zeroes every free vertex's part of the right hand side. */
    method ClearQuadraticForms()
      modifies ivMap`rhs
      ensures forall i :: 0 <= i < |ivMap| ==> ivMap[i].rhs == ZeroVector()
    {
      for i := 0 to |ivMap|
        invariant forall k :: 0 <= k < i ==> ivMap[k].rhs == ZeroVector()
      {
        ivMap[i].rhs := ZeroVector();
      }
    }

    method UpdateFree(update: Vector)
      requires Distinct(ivMap)
      modifies ivMap`estimate
      ensures forall i :: 0 <= i < |ivMap| ==> HasMoved(ivMap, i, old(Estimates(ivMap)), update)
    {
      ghost var before := Estimates(ivMap);
      var offset := 0;
      for i := 0 to |ivMap|
        invariant offset == Offset(ivMap, i)
        invariant forall k :: 0 <= k < i ==> HasMoved(ivMap, k, before, update)
        invariant forall k :: i <= k < |ivMap| ==> ivMap[k].estimate == before[k]
      {
        var v := ivMap[i];
        v.Oplus(Segment(update, offset, v.dimension));
        offset := offset + v.dimension;
      }
    }

    /** Applies each vertex's slice of the increment to it. Vertices outside the mapping stay where they are. */
    method Update(update: Vector)
      requires Distinct(ivMap)
      modifies ivMap`estimate
      ensures forall i :: 0 <= i < |ivMap| ==> HasMoved(ivMap, i, old(Estimates(ivMap)), update)
      ensures StepTaken(activeVertices, ivMap, old(Estimates(activeVertices)), update, Estimates(activeVertices))
    {
      hide Offset, Segment, Distinct;
      ghost var free, all := Estimates(ivMap), Estimates(activeVertices);
      SameEstimates(free, all);
      UpdateFree(update);
      forall j: nat | j < |activeVertices|
        ensures Stepped(activeVertices[j], ivMap, all[j], update, activeVertices[j].estimate)
      {
        AllStepped(free, all, j, update);
      }
    }

    lemma SameEstimates(free: seq<Estimate>, all: seq<Estimate>)
      requires free == Estimates(ivMap) && all == Estimates(activeVertices)
      ensures Agree(free, all)
      ensures forall j: nat :: j < |activeVertices| && activeVertices[j] !in ivMap ==> all[j] == activeVertices[j].estimate
    {
    }

    /** Estimates of the same vertices are the same. */
    ghost predicate Agree(free: seq<Estimate>, all: seq<Estimate>)
      reads this
    {
      && |free| == |ivMap| && |all| == |activeVertices|
      && forall i: nat, j: nat :: i < |free| && j < |all| && ivMap[i] == activeVertices[j] ==> free[i] == all[j]
    }

    lemma AllStepped(free: seq<Estimate>, all: seq<Estimate>, j: nat, update: Vector)
      requires Agree(free, all) && j < |all|
      requires activeVertices[j] !in ivMap ==> all[j] == activeVertices[j].estimate
      requires forall i :: 0 <= i < |ivMap| ==> HasMoved(ivMap, i, free, update)
      ensures Stepped(activeVertices[j], ivMap, all[j], update, activeVertices[j].estimate)
    {
      hide Offset, Segment;
      var v := activeVertices[j];
      forall i: nat | i < |ivMap| && ivMap[i] == v
        ensures v.estimate == v.plus(all[j], Segment(update, Offset(ivMap, i), v.dimension))
      {
        assert HasMoved(ivMap, i, free, update) && free[i] == all[j];
      }
    }

    /** Between a push and what undoes it the estimates may move; the saved ones stay. */
    method Advance(update: Vector, ghost s: seq<Estimate>, ghost stacks: seq<seq<Estimate>>)
      requires Distinct(ivMap) && s == Estimates(activeVertices) && Saved(activeVertices, s, stacks)
      modifies ivMap`estimate
      ensures Saved(activeVertices, s, stacks)
      ensures StepTaken(activeVertices, ivMap, s, update, Estimates(activeVertices))
    {
      hide StepTaken, HasMoved;
      Update(update);
    }

    method Push()
      requires Distinct(activeVertices)
      modifies activeVertices`backup
      ensures Estimates(activeVertices) == old(Estimates(activeVertices))
      ensures Saved(activeVertices, Estimates(activeVertices), old(Backups(activeVertices)))
    {
      for i := 0 to |activeVertices|
        invariant forall k :: 0 <= k < i ==>
          activeVertices[k].backup == old(activeVertices[k].backup) + [activeVertices[k].estimate]
        invariant forall k :: i <= k < |activeVertices| ==> activeVertices[k].backup == old(activeVertices[k].backup)
      {
        activeVertices[i].Push();
      }
    }

    method Pop()
      requires Distinct(activeVertices) && forall i :: 0 <= i < |activeVertices| ==> activeVertices[i].backup != []
      modifies activeVertices`estimate, activeVertices`backup
      ensures forall i :: 0 <= i < |activeVertices| ==>
        old(activeVertices[i].backup) == activeVertices[i].backup + [activeVertices[i].estimate]
    {
      for i := 0 to |activeVertices|
        invariant forall k :: 0 <= k < i ==>
          old(activeVertices[k].backup) == activeVertices[k].backup + [activeVertices[k].estimate]
        invariant forall k :: i <= k < |activeVertices| ==> activeVertices[k].backup == old(activeVertices[k].backup)
      {
        activeVertices[i].Pop();
      }
    }

    method DiscardTop()
      requires Distinct(activeVertices) && forall i :: 0 <= i < |activeVertices| ==> activeVertices[i].backup != []
      modifies activeVertices`backup
      ensures forall i :: 0 <= i < |activeVertices| ==>
        activeVertices[i].backup == old(activeVertices[i].backup[..|activeVertices[i].backup| - 1])
    {
      for i := 0 to |activeVertices|
        invariant forall k :: 0 <= k < i ==>
          activeVertices[k].backup == old(activeVertices[k].backup[..|activeVertices[k].backup| - 1])
        invariant forall k :: i <= k < |activeVertices| ==> activeVertices[k].backup == old(activeVertices[k].backup)
      {
        activeVertices[i].DiscardTop();
      }
    }

    /** Pop after a push: back to the saved estimates. */
    method Undo(ghost s: seq<Estimate>, ghost stacks: seq<seq<Estimate>>)
      requires Distinct(activeVertices) && Saved(activeVertices, s, stacks)
      modifies activeVertices`estimate, activeVertices`backup
      ensures Estimates(activeVertices) == s && Backups(activeVertices) == stacks
    {
      Pop();
      forall i | 0 <= i < |s|
        ensures activeVertices[i].backup == stacks[i] && activeVertices[i].estimate == s[i]
      {
        Unstack(stacks[i], s[i], activeVertices[i].backup, activeVertices[i].estimate);
      }
    }

    /** DiscardTop after a push: the estimates stay as they are now. */
    method Keep(ghost s: seq<Estimate>, ghost stacks: seq<seq<Estimate>>)
      requires Distinct(activeVertices) && Saved(activeVertices, s, stacks)
      modifies activeVertices`backup
      ensures Estimates(activeVertices) == old(Estimates(activeVertices)) && Backups(activeVertices) == stacks
    {
      DiscardTop();
    }

    /** Copies every vertex's part of the right hand side to its column. */
    method CopyB(b: array<real>, sizePoses: nat)
      requires Distinct(ivMap) && PosesFirst(ivMap) && b.Length == Offset(ivMap, |ivMap|)
      requires sizePoses == PartSize(ivMap, |ivMap|, false)
      requires forall i :: 0 <= i < |ivMap| ==> ColumnAssigned(ivMap, i)
      modifies b
      ensures forall i :: 0 <= i < |ivMap| ==> Copied(ivMap, i, b)
    {
      for i := 0 to |ivMap|
        invariant forall k :: 0 <= k < i ==> Copied(ivMap, k, b)
      {
        var v := ivMap[i];
        var iBase := v.colInHessian;
        if v.marginalized {
          iBase := iBase + sizePoses;
        }
        assert iBase == Offset(ivMap, i) by {
          assert ColumnAssigned(ivMap, i);
          BaseIsOffset(ivMap, i);
        }
        CopyVertexB(i, b);
      }
    }

    method CopyVertexB(i: nat, b: array<real>)
      requires i < |ivMap| && b.Length == Offset(ivMap, |ivMap|)
      requires forall k :: 0 <= k < i ==> Copied(ivMap, k, b)
      modifies b
      ensures forall k :: 0 <= k <= i ==> Copied(ivMap, k, b)
    {
      var v, iBase := ivMap[i], Offset(ivMap, i);
      OffsetMonotone(ivMap, i, |ivMap|);
      for j := 0 to v.dimension
        invariant forall l :: 0 <= l < iBase ==> b[l] == old(b[l])
        invariant forall l :: 0 <= l < j ==> b[iBase + l] == v.rhs(l)
      {
        b[iBase + j] := v.rhs(j);
      }
      forall k | 0 <= k < i ensures Copied(ivMap, k, b) {
        assert old(Copied(ivMap, k, b));
        OffsetMonotone(ivMap, k, i);
      }
    }
  }
}
