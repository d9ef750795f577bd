/** The forest of parent links that a search leaves in the adjacency map, and its traversal. */
module ShortestPathTree {
  import opened GraphTypes
  import opened Options
  import opened HyperDijkstra

  ghost predicate ParentsKnown(amap: AdjacencyMap) {
    forall v :: v in amap ==> ParentKnown(amap, v)
  }

  ghost predicate ParentKnown(amap: AdjacencyMap, v: Vertex)
    requires v in amap
  {
    amap[v].parent.Some? ==> amap[v].parent.value in amap
  }

  ghost predicate IsChild(amap: AdjacencyMap, p: Vertex, w: Vertex) {
    w in amap && amap[w].parent == Some(p)
  }

  ghost function ChildrenOf(amap: AdjacencyMap, p: Vertex): set<Vertex> {
    set w | w in amap && IsChild(amap, p, w)
  }

  /** The children sets are the inverse of the parent links. */
  ghost predicate IsTree(amap: AdjacencyMap) {
    ParentsKnown(amap) && forall v :: v in amap ==> amap[v].children == ChildrenOf(amap, v)
  }

  /** amap' differs from amap at most in the children sets. */
  ghost predicate SameLinks(amap: AdjacencyMap, amap': AdjacencyMap) {
    amap.Keys == amap'.Keys && forall v :: v in amap ==> amap'[v] == amap[v].(children := amap'[v].children)
  }

  ghost predicate ChildrenAmong(amap: AdjacencyMap, amap': AdjacencyMap, done: set<Vertex>) {
    forall v :: v in amap' ==> amap'[v].children == ChildrenOf(amap, v) * done
  }

  /** Rebuilds all children sets from the parent links. */
  method ComputeTree(amap: AdjacencyMap) returns (amap': AdjacencyMap)
    requires ParentsKnown(amap)
    ensures SameLinks(amap, amap') && IsTree(amap')
  {
    amap' := map v | v in amap :: amap[v].(children := {});
    var todo := amap.Keys;
    while todo != {}
      invariant todo <= amap.Keys
      invariant SameLinks(amap, amap') && ChildrenAmong(amap, amap', amap.Keys - todo)
    {
      var v :| v in todo;
      assert ParentKnown(amap, v);
      ghost var before := amap';
      if amap[v].parent.Some? {
        var p := amap[v].parent.value;
        amap' := amap'[p := amap'[p].(children := amap'[p].children + {v})];
      }
      OneMoreChild(amap, before, amap', amap.Keys - todo, v);
      todo := todo - {v};
      assert amap.Keys - todo == (amap.Keys - (todo + {v})) + {v};
    }
    forall v | v in amap' ensures amap'[v].children == ChildrenOf(amap', v) && ParentKnown(amap', v) {
      assert ParentKnown(amap, v);
      assert ChildrenOf(amap', v) == ChildrenOf(amap, v) * (amap.Keys - {});
    }
  }

  lemma OneMoreChild(amap: AdjacencyMap, before: AdjacencyMap, after: AdjacencyMap, done: set<Vertex>, v: Vertex)
    requires v in amap && SameLinks(amap, before) && ChildrenAmong(amap, before, done)
    requires match amap[v].parent
             case None => after == before
             case Some(p) => p in before && after == before[p := before[p].(children := before[p].children + {v})]
    ensures ChildrenAmong(amap, after, done + {v})
  {
    forall w | w in after ensures after[w].children == ChildrenOf(amap, w) * (done + {v}) {
      assert before[w].children == ChildrenOf(amap, w) * done;
      assert v in ChildrenOf(amap, w) <==> amap[v].parent == Some(w);
    }
  }

  // ----- Breadth-first traversal

  /** One call of the action: the vertex, and the parent, edge and distance handed over with it. */
  datatype Visit = Visit(v: Vertex, parent: Option<Vertex>, edge: Option<Edge>, distance: Option<Distance>)

  ghost predicate VisitOk(amap: AdjacencyMap, useDistance: bool, x: Visit) {
    && x.v in amap && x.parent == amap[x.v].parent
    && (x.parent.None? ==> x.edge == None && x.distance == None)
    && (x.parent.Some? ==> x.edge == amap[x.v].edge && x.distance == if useDistance then Some(amap[x.v].distance) else None)
  }

  /** The parent of the i-th visit was visited among the first h. */
  ghost predicate ParentWithin(trace: seq<Visit>, i: int, h: int)
    requires 0 <= i < |trace|
  {
    trace[i].parent.Some? ==> exists j :: 0 <= j < h && j < |trace| && trace[j].v == trace[i].parent.value
  }

  ghost predicate Visited(trace: seq<Visit>, v: Vertex) {
    exists i :: 0 <= i < |trace| && trace[i].v == v
  }

  ghost predicate NoneTwice(trace: seq<Visit>) {
    forall i, j :: 0 <= i < j < |trace| ==> trace[i].v != trace[j].v
  }

  /** Vertices up to position h have had all their children visited. */
  ghost predicate ChildrenVisited(amap: AdjacencyMap, trace: seq<Visit>, h: int)
    requires h <= |trace|
  {
    forall i, w :: 0 <= i < h && IsChild(amap, trace[i].v, w) ==> Visited(trace, w)
  }

  ghost predicate RootsVisited(amap: AdjacencyMap, trace: seq<Visit>) {
    forall v :: v in amap && amap[v].parent.None? ==> Visited(trace, v)
  }

  /** The first h visits are done; the others wait in the queue. */
  ghost predicate TraceInv(amap: AdjacencyMap, useDistance: bool, trace: seq<Visit>, h: int) {
    && 0 <= h <= |trace|
    && NoneTwice(trace)
    && (forall i :: 0 <= i < |trace| ==> VisitOk(amap, useDistance, trace[i]))
    && (forall i :: 0 <= i < |trace| ==> ParentWithin(trace, i, h) && ParentWithin(trace, i, i))
  }

  ghost predicate QueueIs(q: seq<Vertex>, trace: seq<Visit>, h: int) {
    0 <= h <= |trace| && |q| == |trace| - h && forall k :: 0 <= k < |q| ==> q[k] == trace[h + k].v
  }

  lemma {:induction false} NoMoreThanVertices(trace: seq<Visit>, vs: set<Vertex>)
    requires NoneTwice(trace) && forall i :: 0 <= i < |trace| ==> trace[i].v in vs
    ensures |trace| <= |vs|
  {
    if trace != [] {
      var n := |trace| - 1;
      NoMoreThanVertices(trace[..n], vs - {trace[n].v});
    }
  }

  /** A vertex whose parent is not among the first h visits can be appended once. */
  lemma AppendVisit(amap: AdjacencyMap, useDistance: bool, trace: seq<Visit>, h: int, x: Visit)
    requires TraceInv(amap, useDistance, trace, h) && VisitOk(amap, useDistance, x) && !Visited(trace, x.v)
    requires x.parent.Some? ==> 0 < h && trace[h - 1].v == x.parent.value
    ensures TraceInv(amap, useDistance, trace + [x], h)
  {
    var trace' := trace + [x];
    forall i | 0 <= i < |trace'| ensures ParentWithin(trace', i, h) && ParentWithin(trace', i, i) {
      if i < |trace| {
        ParentStays(trace, x, i, h);
        ParentStays(trace, x, i, i);
      } else if x.parent.Some? {
        assert trace'[h - 1].v == x.parent.value;
      }
    }
  }

  lemma ParentStays(trace: seq<Visit>, x: Visit, i: int, h: int)
    requires 0 <= i < |trace| && ParentWithin(trace, i, h)
    ensures ParentWithin(trace + [x], i, h)
  {
    if trace[i].parent.Some? {
      var j :| 0 <= j < h && j < |trace| && trace[j].v == trace[i].parent.value;
      assert (trace + [x])[j].v == trace[i].parent.value;
    }
  }

  lemma VisitedStays(trace: seq<Visit>, x: Visit)
    ensures forall v :: Visited(trace, v) ==> Visited(trace + [x], v)
    ensures Visited(trace + [x], x.v)
  {
    forall v | Visited(trace, v) ensures Visited(trace + [x], v) {
      var i :| 0 <= i < |trace| && trace[i].v == v;
      assert (trace + [x])[i].v == v;
    }
    assert (trace + [x])[|trace|].v == x.v;
  }

  /** All vertices without a parent, in any order. */
  method VisitRoots(amap: AdjacencyMap, useDistance: bool) returns (trace: seq<Visit>, q: seq<Vertex>)
    ensures TraceInv(amap, useDistance, trace, 0) && RootsVisited(amap, trace) && QueueIs(q, trace, 0)
  {
    trace, q := [], [];
    var todo := amap.Keys;
    while todo != {}
      invariant todo <= amap.Keys
      invariant TraceInv(amap, useDistance, trace, 0) && QueueIs(q, trace, 0)
      invariant forall v :: v in amap && v !in todo && amap[v].parent.None? ==> Visited(trace, v)
      invariant forall i :: 0 <= i < |trace| ==> trace[i].v !in todo
    {
      var v :| v in todo;
      if amap[v].parent.None? {
        var x := Visit(v, None, None, None);
        AppendVisit(amap, useDistance, trace, 0, x);
        VisitedStays(trace, x);
        trace, q := trace + [x], q + [v];
      }
      todo := todo - {v};
    }
  }

  /** Why a child of the vertex at position h is new: its parent was not among the first h visits. */
  lemma ChildIsNew(amap: AdjacencyMap, useDistance: bool, trace: seq<Visit>, h: int, w: Vertex)
    requires TraceInv(amap, useDistance, trace, h) && h < |trace| && IsChild(amap, trace[h].v, w)
    ensures !Visited(trace, w)
  {
    if Visited(trace, w) {
      var i :| 0 <= i < |trace| && trace[i].v == w;
      assert VisitOk(amap, useDistance, trace[i]);
      var early := ParentWithin(trace, i, h);
      assert false;
    }
  }

  lemma Advance(amap: AdjacencyMap, useDistance: bool, trace: seq<Visit>, h: int)
    requires TraceInv(amap, useDistance, trace, h) && h < |trace|
    ensures TraceInv(amap, useDistance, trace, h + 1)
  {
    var h' := h + 1;
    forall i | 0 <= i < |trace| ensures ParentWithin(trace, i, h') {
      assert ParentWithin(trace, i, h);
    }
  }

  /** All children of the vertex at position h. */
  method VisitChildren(amap: AdjacencyMap, useDistance: bool, trace: seq<Visit>, ghost h: int, parent: Vertex,
                       q: seq<Vertex>)
    returns (trace': seq<Visit>, q': seq<Vertex>)
    requires IsTree(amap) && TraceInv(amap, useDistance, trace, h) && h < |trace| && trace[h].v == parent
    requires QueueIs(q, trace, h + 1)
    ensures TraceInv(amap, useDistance, trace', h + 1) && QueueIs(q', trace', h + 1) && trace <= trace'
    ensures forall w :: IsChild(amap, parent, w) ==> Visited(trace', w)
    ensures forall w :: Visited(trace, w) ==> Visited(trace', w)
  {
    trace', q' := trace, q;
    assert VisitOk(amap, useDistance, trace[h]);
    var todo := amap[parent].children;
    forall w | w in todo ensures !Visited(trace, w) {
      ChildIsNew(amap, useDistance, trace, h, w);
    }
    Advance(amap, useDistance, trace, h);
    while todo != {}
      invariant todo <= amap[parent].children
      invariant TraceInv(amap, useDistance, trace', h + 1) && QueueIs(q', trace', h + 1) && trace <= trace'
      invariant forall w :: w in todo ==> !Visited(trace', w)
      invariant forall w :: w in amap[parent].children && w !in todo ==> Visited(trace', w)
      invariant forall w :: Visited(trace, w) ==> Visited(trace', w)
    {
      var child :| child in todo;
      var x := Visit(child, Some(parent), amap[child].edge, if useDistance then Some(amap[child].distance) else None);
      AppendVisit(amap, useDistance, trace', h + 1, x);
      VisitedStays(trace', x);
      OnlyNew(trace', x);
      trace', q' := trace' + [x], q' + [child];
      todo := todo - {child};
    }
  }

  lemma OnlyNew(trace: seq<Visit>, x: Visit)
    ensures forall w :: Visited(trace + [x], w) ==> Visited(trace, w) || w == x.v
  {
    forall w | Visited(trace + [x], w) ensures Visited(trace, w) || w == x.v {
      var i :| 0 <= i < |trace + [x]| && (trace + [x])[i].v == w;
    }
  }

  lemma ChildrenVisitedGrows(amap: AdjacencyMap, trace: seq<Visit>, trace': seq<Visit>, h: int)
    requires 0 <= h < |trace| && trace <= trace' && ChildrenVisited(amap, trace, h)
    requires forall w :: IsChild(amap, trace[h].v, w) ==> Visited(trace', w)
    requires forall w :: Visited(trace, w) ==> Visited(trace', w)
    ensures ChildrenVisited(amap, trace', h + 1)
  {
    forall i, w | 0 <= i < h + 1 && IsChild(amap, trace'[i].v, w) ensures Visited(trace', w) {
      assert trace'[i] == trace[i];
    }
  }

  /** Applies the action along the forest, roots first. */
  method VisitAdjacencyMap(amap: AdjacencyMap, useDistance: bool) returns (trace: seq<Visit>)
    requires IsTree(amap)
    ensures NoneTwice(trace)
    ensures forall i :: 0 <= i < |trace| ==> VisitOk(amap, useDistance, trace[i]) && ParentWithin(trace, i, i)
    ensures RootsVisited(amap, trace) && ChildrenVisited(amap, trace, |trace|)
  {
    var q: seq<Vertex>;
    trace, q := VisitRoots(amap, useDistance);
    ghost var h := 0;
    while q != []
      invariant TraceInv(amap, useDistance, trace, h) && QueueIs(q, trace, h)
      invariant RootsVisited(amap, trace) && ChildrenVisited(amap, trace, h)
      decreases |amap.Keys| - h
    {
      VisitsFit(amap, useDistance, trace, h);
      trace, q := VisitNext(amap, useDistance, trace, h, q);
      h := h + 1;
    }
  }

  lemma VisitsFit(amap: AdjacencyMap, useDistance: bool, trace: seq<Visit>, h: int)
    requires TraceInv(amap, useDistance, trace, h)
    ensures |trace| <= |amap.Keys|
  {
    forall i | 0 <= i < |trace| ensures trace[i].v in amap.Keys {
      assert VisitOk(amap, useDistance, trace[i]);
    }
    NoMoreThanVertices(trace, amap.Keys);
  }

  /** Takes the front of the queue and visits its children. */
  method VisitNext(amap: AdjacencyMap, useDistance: bool, trace: seq<Visit>, ghost h: int, q: seq<Vertex>)
    returns (trace': seq<Visit>, q': seq<Vertex>)
    requires IsTree(amap) && TraceInv(amap, useDistance, trace, h) && QueueIs(q, trace, h) && q != []
    requires RootsVisited(amap, trace) && ChildrenVisited(amap, trace, h)
    ensures TraceInv(amap, useDistance, trace', h + 1) && QueueIs(q', trace', h + 1)
    ensures RootsVisited(amap, trace') && ChildrenVisited(amap, trace', h + 1)
  {
    var parent := q[0];
    trace', q' := VisitChildren(amap, useDistance, trace, h, parent, q[1..]);
    ChildrenVisitedGrows(amap, trace, trace', h);
  }

  // ----- The forest of a finished search is visited completely

  ghost predicate Acyclic(amap: AdjacencyMap, rank: Vertex -> nat) {
    forall v, p :: IsChild(amap, p, v) ==> rank(p) < rank(v)
  }

  /** Without a cycle of parent links every vertex gets its visit. */
  lemma {:induction false} EverythingVisited(amap: AdjacencyMap, trace: seq<Visit>, rank: Vertex -> nat, v: Vertex)
    requires ParentsKnown(amap) && Acyclic(amap, rank) && v in amap
    requires RootsVisited(amap, trace) && ChildrenVisited(amap, trace, |trace|)
    ensures Visited(trace, v)
    decreases rank(v)
  {
    if amap[v].parent.Some? {
      var p := amap[v].parent.value;
      assert ParentKnown(amap, v);
      assert IsChild(amap, p, v);
      EverythingVisited(amap, trace, rank, p);
      var i :| 0 <= i < |trace| && trace[i].v == p;
      assert IsChild(amap, trace[i].v, v);
    }
  }

  ghost function Position(order: seq<Vertex>, v: Vertex): nat {
    if v in order then FirstIndex(order, v) else 0
  }

  ghost function FirstIndex(order: seq<Vertex>, v: Vertex): (i: nat)
    requires v in order
    ensures i < |order| && order[i] == v && v !in order[..i]
  {
    if order[0] == v then 0 else 1 + FirstIndex(order[1..], v)
  }

  /** Even with edges of cost zero: the settling order ranks every parent below its children. */
  lemma SearchGivesForest(q: Query, sources: set<Vertex>, adj: AdjacencyMap, visited: set<Vertex>, order: seq<Vertex>)
    requires Finished(q, sources, adj, visited, order)
    ensures ParentsKnown(adj)
    ensures Acyclic(adj, v => Position(order, v))
  {
    forall v, p | IsChild(adj, p, v)
      ensures p in adj && Position(order, p) < Position(order, v)
    {
      assert adj[v] != Blank;
      assert v in visited && Explained(q, sources, adj, visited, v);
      var i := FirstIndex(order, v);
      assert ParentBefore(adj, order, i);
      var k :| 0 <= k < i && order[k] == p;
      var j := FirstIndex(order, p);
      assert k == j;
    }
    forall v | v in adj ensures ParentKnown(adj, v) {
      if adj[v].parent.Some? {
        assert IsChild(adj, adj[v].parent.value, v);
      }
    }
  }

  /** Rebuilding the children sets leaves the parent links, and so the forest, as they are. */
  lemma ForestStays(amap: AdjacencyMap, amap': AdjacencyMap, rank: Vertex -> nat)
    requires ParentsKnown(amap) && Acyclic(amap, rank) && SameLinks(amap, amap')
    ensures ParentsKnown(amap') && Acyclic(amap', rank)
  {
    forall v | v in amap' ensures ParentKnown(amap', v) {
      assert ParentKnown(amap, v) && amap'[v] == amap[v].(children := amap'[v].children);
    }
    forall v, p | IsChild(amap', p, v) ensures rank(p) < rank(v) {
      assert amap'[v] == amap[v].(children := amap'[v].children);
      assert IsChild(amap, p, v);
    }
  }

  /** The traversal after a search visits the vertices of the graph, all of them, each once. */
  lemma VisitsAreVertices(q: Query, sources: set<Vertex>, adj: AdjacencyMap, visited: set<Vertex>, order: seq<Vertex>,
                          amap: AdjacencyMap, useDistance: bool, trace: seq<Visit>)
    requires Finished(q, sources, adj, visited, order) && SameLinks(adj, amap)
    requires RootsVisited(amap, trace) && ChildrenVisited(amap, trace, |trace|)
    requires forall i :: 0 <= i < |trace| ==> VisitOk(amap, useDistance, trace[i])
    ensures forall v :: Visited(trace, v) <==> v in q.g.vertices
    ensures forall i :: 0 <= i < |trace| ==> VisitOk(adj, useDistance, trace[i])
  {
    SearchGivesForest(q, sources, adj, visited, order);
    ForestStays(adj, amap, v => Position(order, v));
    forall v ensures Visited(trace, v) <==> v in q.g.vertices {
      if v in q.g.vertices {
        EverythingVisited(amap, trace, w => Position(order, w), v);
      }
      if Visited(trace, v) {
        var i :| 0 <= i < |trace| && trace[i].v == v;
        assert VisitOk(amap, useDistance, trace[i]);
      }
    }
    forall i | 0 <= i < |trace| ensures VisitOk(adj, useDistance, trace[i]) {
      assert VisitOk(amap, useDistance, trace[i]);
      assert amap[trace[i].v] == adj[trace[i].v].(children := amap[trace[i].v].children);
    }
  }

  lemma ParentIsSettled(q: Query, sources: set<Vertex>, adj: AdjacencyMap, visited: set<Vertex>, order: seq<Vertex>,
                        p: Vertex, w: Vertex)
    requires Finished(q, sources, adj, visited, order) && IsChild(adj, p, w)
    ensures p in visited
  {
    assert adj[w] != Blank;
    assert w in visited && Explained(q, sources, adj, visited, w);
    assert ParentBefore(adj, order, FirstIndex(order, w));
    assert p in order;
  }

  /** Only settled vertices have children, so the entries of the others are as they were. */
  lemma OthersStayBlank(q: Query, sources: set<Vertex>, adj: AdjacencyMap, visited: set<Vertex>, order: seq<Vertex>,
                        amap: AdjacencyMap)
    requires Finished(q, sources, adj, visited, order) && SameLinks(adj, amap) && IsTree(amap)
    ensures forall v :: v in adj && v !in visited && adj[v] == Blank ==> amap[v] == Blank
  {
    forall v, w | IsChild(amap, v, w) ensures v in visited {
      assert amap[w] == adj[w].(children := amap[w].children);
      ParentIsSettled(q, sources, adj, visited, order, v, w);
    }
    forall v | v in adj && v !in visited && adj[v] == Blank ensures amap[v] == Blank {
      assert amap[v].children == ChildrenOf(amap, v) == {};
      assert amap[v] == adj[v].(children := amap[v].children);
    }
  }

  /**
   A search, the rebuilding of the children sets, and the traversal. Every vertex of the graph is visited
   exactly once, after its parent, with the edge and the distance that the search found.
   */
  method VisitShortestPaths(dijkstra: HyperDijkstra, sources: set<Vertex>, cost: (Edge, Vertex, Vertex) -> Distance,
                            maxDistance: Distance, slack: real, directed: bool, maxEdgeCost: Distance, useDistance: bool)
    returns (trace: seq<Visit>, ghost searched: AdjacencyMap)
    requires dijkstra.Valid() && sources <= dijkstra.graph.vertices
    requires ValidQuery(Query(dijkstra.graph, cost, maxDistance, slack, directed, maxEdgeCost))
    modifies dijkstra
    ensures dijkstra.Valid()
    ensures Finished(Query(dijkstra.graph, cost, maxDistance, slack, directed, maxEdgeCost), sources, searched, dijkstra.visited,
                     dijkstra.order)
    ensures SameLinks(searched, dijkstra.adjacencyMap) && IsTree(dijkstra.adjacencyMap)
    ensures NoneTwice(trace) && forall v :: Visited(trace, v) <==> v in dijkstra.graph.vertices
    ensures forall i :: 0 <= i < |trace| ==> VisitOk(searched, useDistance, trace[i]) && ParentWithin(trace, i, i)
  {
    hide Finished, MapInv, OrderInv, IsTree, VisitOk, RootsVisited, ChildrenVisited, NoneTwice, Visited, ParentWithin;
    ghost var q := Query(dijkstra.graph, cost, maxDistance, slack, directed, maxEdgeCost);
    dijkstra.ShortestPaths(sources, cost, maxDistance, slack, directed, maxEdgeCost);
    searched := dijkstra.adjacencyMap;
    SearchGivesForest(q, sources, searched, dijkstra.visited, dijkstra.order);
    var amap := ComputeTree(dijkstra.adjacencyMap);
    trace := VisitAdjacencyMap(amap, useDistance);
    VisitsAreVertices(q, sources, searched, dijkstra.visited, dijkstra.order, amap, useDistance, trace);
    OthersStayBlank(q, sources, searched, dijkstra.visited, dijkstra.order, amap);
    dijkstra.adjacencyMap := amap;
  }
}
