/**
 Dijkstra's algorithm on a hypergraph with a heap that keeps outdated copies and a slack in the
 comparison of distances.
 */
module HyperDijkstra {
  import opened GraphTypes
  import opened Options

  datatype Graph = Graph(vertices: set<Vertex>, incident: map<Vertex, set<Edge>>, ends: map<Edge, seq<Vertex>>)

  ghost predicate ValidVertex(g: Graph, v: Vertex) {
    v in g.incident && forall e :: e in g.incident[v] ==> ValidEdge(g, v, e)
  }

  ghost predicate ValidEdge(g: Graph, v: Vertex, e: Edge) {
    e in g.ends && v in g.ends[e] && forall z :: z in g.ends[e] ==> z in g.vertices
  }

  ghost predicate ValidGraph(g: Graph) {
    forall v :: v in g.vertices ==> ValidVertex(g, v)
  }

  datatype Query = Query(
    g: Graph,
    cost: (Edge, Vertex, Vertex) -> Distance,
    maxDistance: Distance,
    slack: real,
    directed: bool,
    maxEdgeCost: Distance)

  ghost predicate ValidQuery(q: Query) {
    && ValidGraph(q.g)
    && q.slack >= 0.0
    && forall e, u, z :: q.cost(e, u, z).At? ==> q.cost(e, u, z).d >= 0.0
  }

  /** The search may go from u to z over e. */
  ghost predicate Passable(q: Query, e: Edge, u: Vertex, z: Vertex) {
    && z != u
    && q.cost(e, u, z).At?
    && (q.maxEdgeCost.Far? || q.cost(e, u, z).d <= q.maxEdgeCost.d)
  }

  /** The loops over the edges of u and over the vertices of e come to z. */
  ghost predicate OnEdge(q: Query, u: Vertex, e: Edge, z: Vertex) {
    && u in q.g.incident && e in q.g.incident[u]
    && e in q.g.ends && z in q.g.ends[e]
    && (q.directed ==> q.g.ends[e][0] == u)
  }

  ghost predicate Allowed(q: Query, u: Vertex, e: Edge, z: Vertex) {
    OnEdge(q, u, e, z) && Passable(q, e, u, z)
  }

  datatype Entry = Entry(parent: Option<Vertex>, edge: Option<Edge>, distance: Distance, children: set<Vertex>)

  const Blank := Entry(None, None, Far, {})

  type AdjacencyMap = map<Vertex, Entry>

  // ----- What a finished search has established

  /** The distance of u and what the step from u to z over e costs. */
  ghost function StepDistance(q: Query, adj: AdjacencyMap, u: Vertex, e: Edge, z: Vertex): real
    requires u in adj && adj[u].distance.At? && q.cost(e, u, z).At?
  {
    adj[u].distance.d + q.cost(e, u, z).d
  }

  /** Going from u to z over e brings no gain beyond the slack, or leaves the search radius. */
  ghost predicate Relaxed(q: Query, adj: AdjacencyMap, u: Vertex, e: Edge, z: Vertex)
    requires u in adj && z in adj && adj[u].distance.At? && q.cost(e, u, z).At?
  {
    var zDistance := StepDistance(q, adj, u, e, z);
    !(Below(zDistance + q.slack, adj[z].distance) && Below(zDistance, q.maxDistance))
  }

  ghost predicate RelaxedTo(q: Query, adj: AdjacencyMap, u: Vertex, e: Edge, z: Vertex) {
    Allowed(q, u, e, z) ==> u in adj && z in adj && adj[u].distance.At? && Relaxed(q, adj, u, e, z)
  }

  ghost predicate AllRelaxed(q: Query, adj: AdjacencyMap, u: Vertex) {
    u in adj && adj[u].distance.At? && forall e, z :: RelaxedTo(q, adj, u, e, z)
  }

  /** The finite distance of v is explained: a start at 0, or one allowed step beyond its parent. */
  ghost predicate Explained(q: Query, sources: set<Vertex>, adj: AdjacencyMap, settled: set<Vertex>, v: Vertex)
    requires v in adj && adj[v].distance.At?
  {
    if adj[v].parent.None? then v in sources && adj[v].distance.d == 0.0
    else
      var p := adj[v].parent.value;
      && p in settled && p in adj && adj[p].distance.At?
      && adj[v].edge.Some?
      && Allowed(q, p, adj[v].edge.value, v)
      && adj[v].distance.d == StepDistance(q, adj, p, adj[v].edge.value, v)
      && Below(adj[v].distance.d, q.maxDistance)
  }

  /** Vertices in the order they were settled; every parent comes before its children. */
  ghost predicate ParentsFirst(adj: AdjacencyMap, order: seq<Vertex>) {
    forall i :: 0 <= i < |order| ==> ParentBefore(adj, order, i)
  }

  ghost predicate ParentBefore(adj: AdjacencyMap, order: seq<Vertex>, i: int)
    requires 0 <= i < |order|
  {
    order[i] in adj && (adj[order[i]].parent.Some? ==> adj[order[i]].parent.value in order[..i])
  }

  /** A settled w could lead to v over e inside the search radius. */
  ghost predicate Offers(q: Query, adj: AdjacencyMap, w: Vertex, e: Edge, v: Vertex) {
    && Allowed(q, w, e, v) && w in adj && adj[w].distance.At?
    && Below(StepDistance(q, adj, w, e, v), q.maxDistance)
  }

  /** A way to v that is longer than its distance by more than the slack. */
  ghost predicate Beaten(q: Query, adj: AdjacencyMap, w: Vertex, e: Edge, v: Vertex)
    requires v in adj && adj[v].distance.At?
  {
    Offers(q, adj, w, e, v) && StepDistance(q, adj, w, e, v) > adj[v].distance.d + q.slack
  }

  /** If the earlier vertices offered any way to v, the distance of v beats one of them by more than the slack. */
  ghost predicate BeatsEarlier(q: Query, adj: AdjacencyMap, earlier: seq<Vertex>, v: Vertex)
    requires v in adj && adj[v].distance.At?
  {
    (exists w, e :: w in earlier && Offers(q, adj, w, e, v)) ==> exists w, e :: w in earlier && Beaten(q, adj, w, e, v)
  }

  ghost predicate BeatsBeforeParent(q: Query, adj: AdjacencyMap, order: seq<Vertex>, v: Vertex)
    requires v in adj && adj[v].distance.At? && adj[v].parent.Some?
  {
    forall i :: 0 <= i < |order| && order[i] == adj[v].parent.value ==> BeatsEarlier(q, adj, order[..i], v)
  }

  /** No vertex got its parent from a gain within the slack over what the vertices settled before the parent offer. */
  ghost predicate SlackKept(q: Query, adj: AdjacencyMap, order: seq<Vertex>) {
    forall v :: v in adj && adj[v].distance.At? && adj[v].parent.Some? ==> BeatsBeforeParent(q, adj, order, v)
  }

  /** The result of a search: the settled vertices are the reached ones, each explained and relaxed. */
  ghost predicate Finished(q: Query, sources: set<Vertex>, adj: AdjacencyMap, visited: set<Vertex>, order: seq<Vertex>) {
    && MapInv(q, sources, adj, visited)
    && OrderInv(q, adj, visited, order)
    && SlackKept(q, adj, order)
    && forall v :: v in adj && adj[v].distance.At? ==> v in visited
  }

  // ----- The search

  ghost predicate ItemOk(adj: AdjacencyMap, it: Item, cur: real) {
    it.v in adj && adj[it.v].distance.At? && adj[it.v].distance.d <= it.key && cur <= it.key
  }

  /** v is settled, or its present distance is on the heap. */
  ghost predicate Tracked(adj: AdjacencyMap, visited: set<Vertex>, frontier: multiset<Item>, v: Vertex)
    requires v in adj
  {
    adj[v].distance.At? ==> v in visited || Item(adj[v].distance.d, v) in frontier
  }

  ghost predicate SettledBelow(adj: AdjacencyMap, v: Vertex, cur: real) {
    v in adj && adj[v].distance.At? && adj[v].distance.d <= cur
  }

  /** A start keeps distance 0 and gets no parent. */
  ghost predicate IsStart(adj: AdjacencyMap, v: Vertex) {
    v in adj && adj[v] == Blank.(distance := At(0.0))
  }

  ghost predicate MapInv(q: Query, sources: set<Vertex>, adj: AdjacencyMap, visited: set<Vertex>) {
    && adj.Keys == q.g.vertices
    && visited <= adj.Keys
    && (forall v :: v in sources ==> IsStart(adj, v))
    && (forall v :: v in adj && adj[v].distance.At? ==> Explained(q, sources, adj, visited, v))
    && (forall v :: v in adj && adj[v].distance.Far? ==> adj[v] == Blank)
  }

  ghost predicate HeapInv(adj: AdjacencyMap, visited: set<Vertex>, frontier: multiset<Item>, cur: real) {
    && 0.0 <= cur
    && (forall it :: it in frontier ==> ItemOk(adj, it, cur))
    && (forall v :: v in adj ==> Tracked(adj, visited, frontier, v))
    && (forall v :: v in visited ==> SettledBelow(adj, v, cur))
  }

  /** Distances only go down, and settled entries stay as they are. */
  ghost predicate Lower(adj: AdjacencyMap, adj': AdjacencyMap, visited: set<Vertex>) {
    && adj.Keys == adj'.Keys
    && (forall v :: v in adj ==> NotAbove(adj'[v].distance, adj[v].distance))
    && (forall v :: v in visited && v in adj ==> adj'[v] == adj[v])
  }

  lemma RelaxedStays(q: Query, adj: AdjacencyMap, adj': AdjacencyMap, visited: set<Vertex>, u: Vertex, e: Edge, z: Vertex)
    requires Lower(adj, adj', visited) && u in visited && RelaxedTo(q, adj, u, e, z)
    ensures RelaxedTo(q, adj', u, e, z)
  {
    if Allowed(q, u, e, z) {
      assert NotAbove(adj'[z].distance, adj[z].distance);
    }
  }

  lemma AllRelaxedStays(q: Query, adj: AdjacencyMap, adj': AdjacencyMap, visited: set<Vertex>, u: Vertex)
    requires Lower(adj, adj', visited) && u in visited && AllRelaxed(q, adj, u)
    ensures AllRelaxed(q, adj', u)
  {
    forall e, z ensures RelaxedTo(q, adj', u, e, z) {
      RelaxedStays(q, adj, adj', visited, u, e, z);
    }
  }

  lemma LowerTransitive(a: AdjacencyMap, b: AdjacencyMap, c: AdjacencyMap, visited: set<Vertex>)
    requires Lower(a, b, visited) && Lower(b, c, visited)
    ensures Lower(a, c, visited)
  {
    forall v | v in a ensures NotAbove(c[v].distance, a[v].distance) {
      assert NotAbove(b[v].distance, a[v].distance) && NotAbove(c[v].distance, b[v].distance);
    }
  }

  /** Setting a shorter distance for an unsettled z, one allowed step beyond the settled u. */
  lemma ImproveKeepsMap(q: Query, sources: set<Vertex>, adj: AdjacencyMap, visited: set<Vertex>,
                        cur: real, u: Vertex, e: Edge, z: Vertex, entry: Entry)
    requires MapInv(q, sources, adj, visited) && u in visited && adj[u].distance.At?
    requires z in adj && z !in visited && Allowed(q, u, e, z)
    requires entry == adj[z].(distance := At(StepDistance(q, adj, u, e, z)), parent := Some(u), edge := Some(e))
    requires Below(entry.distance.d, q.maxDistance) && Below(entry.distance.d + q.slack, adj[z].distance)
    requires 0.0 <= cur <= entry.distance.d && q.slack >= 0.0
    ensures MapInv(q, sources, adj[z := entry], visited)
    ensures Lower(adj, adj[z := entry], visited)
  {
    var adj' := adj[z := entry];
    forall v | v in sources ensures IsStart(adj', v) {
      assert IsStart(adj, v);
    }
    forall v | v in adj' && adj'[v].distance.At?
      ensures Explained(q, sources, adj', visited, v)
    {
      if v != z {
        assert Explained(q, sources, adj, visited, v);
      }
    }
  }

  /** The order lists the settled vertices, each once. */
  ghost predicate ListedOnce(visited: set<Vertex>, order: seq<Vertex>) {
    Distinct(order) && forall v :: v in order <==> v in visited
  }

  /** The vertex settled last; from the others there is nothing to gain. */
  ghost predicate Newest(q: Query, adj: AdjacencyMap, order: seq<Vertex>, u: Vertex) {
    order != [] && order[|order| - 1] == u && forall w :: w in order[..|order| - 1] ==> AllRelaxed(q, adj, w)
  }

  lemma OfferStays(q: Query, adj: AdjacencyMap, adj': AdjacencyMap, w: Vertex, e: Edge, v: Vertex)
    requires w in adj && w in adj' && adj'[w] == adj[w]
    ensures Offers(q, adj', w, e, v) <==> Offers(q, adj, w, e, v)
    ensures Offers(q, adj, w, e, v) ==> StepDistance(q, adj', w, e, v) == StepDistance(q, adj, w, e, v)
  {
  }

  /** A shorter distance for the same vertex beats what was beaten before. */
  lemma BeatsEarlierStays(q: Query, adj: AdjacencyMap, adj': AdjacencyMap, earlier: seq<Vertex>, v: Vertex)
    requires v in adj && v in adj' && adj[v].distance.At? && adj'[v].distance.At? && adj'[v].distance.d <= adj[v].distance.d
    requires forall w :: w in earlier ==> w in adj && w in adj' && adj'[w] == adj[w]
    requires BeatsEarlier(q, adj, earlier, v)
    ensures BeatsEarlier(q, adj', earlier, v)
  {
    hide Offers, StepDistance;
    if w, e :| w in earlier && Offers(q, adj', w, e, v) {
      OfferStays(q, adj, adj', w, e, v);
      var w', e' :| w' in earlier && Beaten(q, adj, w', e', v);
      OfferStays(q, adj, adj', w', e', v);
      assert Beaten(q, adj', w', e', v);
    }
  }

  /** The distance that the improvement replaces was offered before u, unless u itself offered it. */
  lemma ImproveBeatsEarlier(q: Query, sources: set<Vertex>, adj: AdjacencyMap, visited: set<Vertex>, order: seq<Vertex>,
                            u: Vertex, e: Edge, z: Vertex, entry: Entry)
    requires MapInv(q, sources, adj, visited) && q.slack >= 0.0 && z in adj && z !in visited && Newest(q, adj, order, u)
    requires ListedOnce(visited, order) && SlackKept(q, adj, order)
    requires entry.distance.At? && Below(entry.distance.d + q.slack, adj[z].distance)
    requires adj[z].distance.At? ==> adj[z].parent.Some?
    ensures BeatsEarlier(q, adj[z := entry], order[..|order| - 1], z)
  {
    var adj', earlier := adj[z := entry], order[..|order| - 1];
    if adj[z].distance.Far? {
      forall w, e' | w in earlier ensures !Offers(q, adj', w, e', z) {
        assert AllRelaxed(q, adj, w);
        assert RelaxedTo(q, adj, w, e', z);
        OfferStays(q, adj, adj', w, e', z);
      }
    } else {
      var p := adj[z].parent.value;
      assert Explained(q, sources, adj, visited, z);
      assert BeatsBeforeParent(q, adj, order, z);
      if p == u {
        BeatsEarlierStays(q, adj, adj', earlier, z);
      } else {
        assert p in earlier;
        OfferStays(q, adj, adj', p, adj[z].edge.value, z);
        assert Beaten(q, adj', p, adj[z].edge.value, z);
      }
    }
  }

  lemma ImproveKeepsSlack(q: Query, sources: set<Vertex>, adj: AdjacencyMap, visited: set<Vertex>, order: seq<Vertex>,
                          u: Vertex, e: Edge, z: Vertex, entry: Entry)
    requires MapInv(q, sources, adj, visited) && q.slack >= 0.0 && z in adj && z !in visited && Newest(q, adj, order, u)
    requires ListedOnce(visited, order) && SlackKept(q, adj, order)
    requires entry.distance.At? && entry.parent == Some(u) && Below(entry.distance.d + q.slack, adj[z].distance)
    requires adj[z].distance.At? ==> adj[z].parent.Some?
    ensures SlackKept(q, adj[z := entry], order)
  {
    var adj' := adj[z := entry];
    ImproveBeatsEarlier(q, sources, adj, visited, order, u, e, z, entry);
    hide MapInv, Newest, BeatsEarlier;
    forall v | v in adj' && adj'[v].distance.At? && adj'[v].parent.Some? ensures BeatsBeforeParent(q, adj', order, v) {
      if v == z {
        forall i | 0 <= i < |order| && order[i] == u ensures i == |order| - 1 {
        }
      } else {
        assert BeatsBeforeParent(q, adj, order, v);
        forall i | 0 <= i < |order| && order[i] == adj'[v].parent.value ensures BeatsEarlier(q, adj', order[..i], v) {
          BeatsEarlierStays(q, adj, adj', order[..i], v);
        }
      }
    }
  }

  lemma StartIsNearest(q: Query, sources: set<Vertex>, adj: AdjacencyMap, visited: set<Vertex>, z: Vertex, d: real)
    requires MapInv(q, sources, adj, visited) && z in adj && d >= 0.0 && q.slack >= 0.0 && Below(d + q.slack, adj[z].distance)
    ensures adj[z].distance.At? ==> adj[z].parent.Some?
  {
    if adj[z].distance.At? {
      assert Explained(q, sources, adj, visited, z);
    }
  }

  lemma NewestStays(q: Query, adj: AdjacencyMap, adj': AdjacencyMap, visited: set<Vertex>, order: seq<Vertex>, u: Vertex)
    requires Newest(q, adj, order, u) && Lower(adj, adj', visited) && ListedOnce(visited, order)
    ensures Newest(q, adj', order, u)
  {
    forall w | w in order[..|order| - 1] ensures AllRelaxed(q, adj', w) {
      AllRelaxedStays(q, adj, adj', visited, w);
    }
  }

  /** Nobody has a vertex for parent that is only now settled. */
  lemma SettlingKeepsSlack(q: Query, sources: set<Vertex>, adj: AdjacencyMap, visited: set<Vertex>, order: seq<Vertex>,
                           u: Vertex)
    requires MapInv(q, sources, adj, visited) && u !in visited && SlackKept(q, adj, order)
    ensures SlackKept(q, adj, order + [u])
  {
    hide BeatsEarlier;
    forall v | v in adj && adj[v].distance.At? && adj[v].parent.Some? ensures BeatsBeforeParent(q, adj, order + [u], v) {
      assert BeatsBeforeParent(q, adj, order, v);
      assert Explained(q, sources, adj, visited, v);
      forall i | 0 <= i < |order + [u]| && (order + [u])[i] == adj[v].parent.value
        ensures BeatsEarlier(q, adj, (order + [u])[..i], v)
      {
        assert (order + [u])[..i] == order[..i];
      }
    }
  }

  lemma ImproveKeepsHeap(adj: AdjacencyMap, visited: set<Vertex>, frontier: multiset<Item>, cur: real, z: Vertex,
                         entry: Entry)
    requires HeapInv(adj, visited, frontier, cur) && z in adj && z !in visited
    requires entry.distance.At? && cur <= entry.distance.d && NotAbove(entry.distance, adj[z].distance)
    ensures HeapInv(adj[z := entry], visited, frontier + multiset{Item(entry.distance.d, z)}, cur)
  {
    var adj', frontier' := adj[z := entry], frontier + multiset{Item(entry.distance.d, z)};
    forall it | it in frontier'
      ensures ItemOk(adj', it, cur)
    {
      if it in frontier {
        assert ItemOk(adj, it, cur);
      }
    }
    forall v | v in adj'
      ensures Tracked(adj', visited, frontier', v)
    {
      if v != z {
        assert Tracked(adj, visited, frontier, v);
      }
    }
    forall v | v in visited
      ensures SettledBelow(adj', v, cur)
    {
      assert SettledBelow(adj, v, cur);
    }
  }

  /** An improvement can neither come from a vertex that is already relaxed nor go to a settled one. */
  lemma ImproveIsNew(q: Query, adj: AdjacencyMap, visited: set<Vertex>, cur: real, u: Vertex, e: Edge, z: Vertex)
    requires ValidQuery(q) && u in visited && u in adj && z in adj && adj[u].distance.At?
    requires forall v :: v in visited ==> SettledBelow(adj, v, cur)
    requires adj[u].distance.d == cur || AllRelaxed(q, adj, u)
    requires Allowed(q, u, e, z) && !RelaxedTo(q, adj, u, e, z)
    ensures !AllRelaxed(q, adj, u) && z !in visited && cur <= StepDistance(q, adj, u, e, z)
  {
    if z in visited {
      assert SettledBelow(adj, z, cur);
    }
  }

  class HyperDijkstra {
    const graph: Graph
    var adjacencyMap: AdjacencyMap
    var visited: set<Vertex>
    ghost var order: seq<Vertex>

    ghost predicate Valid()
      reads this
    {
      && ValidGraph(graph)
      && adjacencyMap.Keys == graph.vertices
      && visited <= graph.vertices
      && forall v :: v in adjacencyMap && v !in visited ==> adjacencyMap[v] == Blank
    }

    constructor (g: Graph)
      requires ValidGraph(g)
      ensures Valid() && graph == g && visited == {} && order == [] && forall v :: v in g.vertices ==> adjacencyMap[v] == Blank
    {
      graph := g;
      adjacencyMap := map v | v in g.vertices :: Blank;
      visited := {};
      order := [];
    }

    method Reset()
      requires Valid()
      modifies this
      ensures Valid() && visited == {} && order == [] && forall v :: v in graph.vertices ==> adjacencyMap[v] == Blank
    {
      var todo := visited;
      while todo != {}
        invariant todo <= visited && visited == old(visited) && adjacencyMap.Keys == graph.vertices
        invariant forall v :: v in adjacencyMap && v !in todo ==> adjacencyMap[v] == Blank
      {
        var v :| v in todo;
        adjacencyMap := adjacencyMap[v := Blank];
        todo := todo - {v};
      }
      visited := {};
      order := [];
    }

    ghost predicate SearchInv(q: Query, sources: set<Vertex>, frontier: multiset<Item>, cur: real)
      reads this
    {
      MapInv(q, sources, adjacencyMap, visited) && HeapInv(adjacencyMap, visited, frontier, cur)
    }

    /** Records a better way to reach z and pushes a copy of the entry. */
    method Improve(q: Query, ghost sources: set<Vertex>, u: Vertex, e: Edge, z: Vertex, frontier: multiset<Item>,
                   ghost cur: real)
      returns (frontier': multiset<Item>)
      requires ValidQuery(q) && SearchInv(q, sources, frontier, cur)
      requires u in visited && u in adjacencyMap && adjacencyMap[u].distance.At?
      requires z in adjacencyMap && z !in visited && Allowed(q, u, e, z)
      requires cur <= StepDistance(q, adjacencyMap, u, e, z)
      requires Below(StepDistance(q, adjacencyMap, u, e, z) + q.slack, adjacencyMap[z].distance)
      requires Below(StepDistance(q, adjacencyMap, u, e, z), q.maxDistance)
      requires ListedOnce(visited, order) && Newest(q, adjacencyMap, order, u) && SlackKept(q, adjacencyMap, order)
      modifies this`adjacencyMap
      ensures SearchInv(q, sources, frontier', cur)
      ensures Lower(old(adjacencyMap), adjacencyMap, visited)
      ensures Newest(q, adjacencyMap, order, u) && SlackKept(q, adjacencyMap, order)
      ensures z in adjacencyMap && adjacencyMap[z].distance == At(StepDistance(q, old(adjacencyMap), u, e, z))
    {
      hide AllRelaxed, Relaxed, SlackKept, Newest, Explained;
      var adj := adjacencyMap;
      var zDistance := adj[u].distance.d + q.cost(e, u, z).d;
      var entry := adj[z].(distance := At(zDistance), parent := Some(u), edge := Some(e));
      ImproveKeepsMap(q, sources, adj, visited, cur, u, e, z, entry);
      ImproveKeepsHeap(adj, visited, frontier, cur, z, entry);
      StartIsNearest(q, sources, adj, visited, z, zDistance);
      ImproveKeepsSlack(q, sources, adj, visited, order, u, e, z, entry);
      NewestStays(q, adj, adj[z := entry], visited, order, u);
      adjacencyMap := adj[z := entry];
      frontier' := frontier + multiset{Item(zDistance, z)};
    }

    ghost predicate MayExpand(q: Query, sources: set<Vertex>, u: Vertex, frontier: multiset<Item>, cur: real)
      reads this
    {
      && ValidQuery(q) && q.g == graph && SearchInv(q, sources, frontier, cur)
      && u in visited && u in adjacencyMap && adjacencyMap[u].distance.At?
      && ListedOnce(visited, order) && SlackKept(q, adjacencyMap, order)
      && ((adjacencyMap[u].distance.d == cur && Newest(q, adjacencyMap, order, u)) || AllRelaxed(q, adjacencyMap, u))
    }

    /** One comparison of the inner loop: try to reach z from the settled vertex u over e. */
    method Relax(q: Query, ghost sources: set<Vertex>, u: Vertex, e: Edge, z: Vertex, frontier: multiset<Item>,
                 ghost cur: real)
      returns (frontier': multiset<Item>)
      requires MayExpand(q, sources, u, frontier, cur) && OnEdge(q, u, e, z) && z in adjacencyMap
      modifies this`adjacencyMap
      ensures MayExpand(q, sources, u, frontier', cur)
      ensures Lower(old(adjacencyMap), adjacencyMap, visited)
      ensures RelaxedTo(q, adjacencyMap, u, e, z)
      ensures AllRelaxed(q, old(adjacencyMap), u) ==> frontier' == frontier && adjacencyMap == old(adjacencyMap)
    {
      frontier' := frontier;
      var edgeDistance := q.cost(e, u, z);
      if z != u && edgeDistance.At? && (q.maxEdgeCost.Far? || edgeDistance.d <= q.maxEdgeCost.d) {
        var zDistance := adjacencyMap[u].distance.d + edgeDistance.d;
        if Below(zDistance + q.slack, adjacencyMap[z].distance) && Below(zDistance, q.maxDistance) {
          ImproveIsNew(q, adjacencyMap, visited, cur, u, e, z);
          frontier' := Improve(q, sources, u, e, z, frontier, cur);
          assert adjacencyMap[u] == old(adjacencyMap)[u];
        }
      }
    }

    /** All vertices of one edge of u. */
    method RelaxEdge(q: Query, ghost sources: set<Vertex>, u: Vertex, e: Edge, frontier: multiset<Item>, ghost cur: real)
      returns (frontier': multiset<Item>)
      requires MayExpand(q, sources, u, frontier, cur)
      requires u in q.g.incident && e in q.g.incident[u] && ValidEdge(q.g, u, e)
      modifies this`adjacencyMap
      ensures MayExpand(q, sources, u, frontier', cur)
      ensures Lower(old(adjacencyMap), adjacencyMap, visited)
      ensures forall z :: RelaxedTo(q, adjacencyMap, u, e, z)
      ensures AllRelaxed(q, old(adjacencyMap), u) ==> frontier' == frontier && adjacencyMap == old(adjacencyMap)
    {
      hide SearchInv, AllRelaxed, Relaxed, Lower;
      frontier' := frontier;
      LowerReflexive(adjacencyMap, visited);
      if q.directed && q.g.ends[e][0] != u {
        return;
      }
      var zs := q.g.ends[e];
      var i := 0;
      while i < |zs|
        invariant 0 <= i <= |zs|
        invariant MayExpand(q, sources, u, frontier', cur)
        invariant Lower(old(adjacencyMap), adjacencyMap, visited)
        invariant RelaxedUpTo(q, adjacencyMap, u, e, zs, i)
        invariant AllRelaxed(q, old(adjacencyMap), u) ==> frontier' == frontier && adjacencyMap == old(adjacencyMap)
      {
        ghost var before := adjacencyMap;
        SlotsAreKnown(q, sources, u, e, frontier', cur);
        frontier' := Relax(q, sources, u, e, zs[i], frontier', cur);
        KeepRelaxed(q, old(adjacencyMap), before, adjacencyMap, visited, u, e, zs, i);
        i := i + 1;
      }
      RelaxedToAll(q, adjacencyMap, u, e, zs);
    }

    /** All edges of a settled vertex; afterwards nothing can be gained from u any more. */
    method Expand(q: Query, ghost sources: set<Vertex>, u: Vertex, frontier: multiset<Item>, ghost cur: real)
      returns (frontier': multiset<Item>)
      requires MayExpand(q, sources, u, frontier, cur)
      modifies this`adjacencyMap
      ensures SearchInv(q, sources, frontier', cur) && SlackKept(q, adjacencyMap, order)
      ensures Lower(old(adjacencyMap), adjacencyMap, visited)
      ensures AllRelaxed(q, adjacencyMap, u)
      ensures AllRelaxed(q, old(adjacencyMap), u) ==> frontier' == frontier && adjacencyMap == old(adjacencyMap)
    {
      hide *;
      EdgesAreValid(q, sources, u, frontier, cur);
      LowerReflexive(adjacencyMap, visited);
      NothingToRelax(q, adjacencyMap, u);
      frontier' := frontier;
      var todo := q.g.incident[u];
      ghost var done: set<Edge> := {};
      while todo != {}
        invariant todo <= q.g.incident[u] <= done + todo
        invariant MayExpand(q, sources, u, frontier', cur)
        invariant Lower(old(adjacencyMap), adjacencyMap, visited)
        invariant EdgesRelaxed(q, adjacencyMap, u, done)
        invariant AllRelaxed(q, old(adjacencyMap), u) ==> frontier' == frontier && adjacencyMap == old(adjacencyMap)
      {
        var e :| e in todo;
        ghost var before := adjacencyMap;
        frontier' := RelaxEdge(q, sources, u, e, frontier', cur);
        SettledHere(q, sources, u, frontier', cur);
        KeepEdges(q, old(adjacencyMap), before, adjacencyMap, visited, u, done, e);
        todo, done := todo - {e}, done + {e};
      }
      SettledHere(q, sources, u, frontier', cur);
      AllEdgesRelaxed(q, adjacencyMap, u, done);
    }

    lemma EdgesAreValid(q: Query, sources: set<Vertex>, u: Vertex, frontier: multiset<Item>, cur: real)
      requires MayExpand(q, sources, u, frontier, cur)
      ensures u in q.g.incident && forall e :: e in q.g.incident[u] ==> ValidEdge(q.g, u, e)
    {
      assert ValidVertex(q.g, u);
    }

    lemma SettledHere(q: Query, sources: set<Vertex>, u: Vertex, frontier: multiset<Item>, cur: real)
      requires MayExpand(q, sources, u, frontier, cur)
      ensures SearchInv(q, sources, frontier, cur) && u in visited && u in adjacencyMap && adjacencyMap[u].distance.At?
      ensures SlackKept(q, adjacencyMap, order)
    {
    }

    lemma SlotsAreKnown(q: Query, sources: set<Vertex>, u: Vertex, e: Edge, frontier: multiset<Item>, cur: real)
      requires MayExpand(q, sources, u, frontier, cur)
      requires u in q.g.incident && e in q.g.incident[u] && ValidEdge(q.g, u, e) && (q.directed ==> q.g.ends[e][0] == u)
      ensures forall z :: z in q.g.ends[e] ==> OnEdge(q, u, e, z) && z in adjacencyMap
    {
    }

    /** Takes the nearest copy off the heap; unless it is outdated, its vertex becomes settled. */
    method SettleNext(q: Query, ghost sources: set<Vertex>, frontier: multiset<Item>, ghost cur: real)
      returns (frontier': multiset<Item>, ghost cur': real)
      requires ValidQuery(q) && q.g == graph && frontier != multiset{}
      requires SearchInv(q, sources, frontier, cur) && OrderInv(q, adjacencyMap, visited, order)
      requires SlackKept(q, adjacencyMap, order)
      modifies this
      ensures SearchInv(q, sources, frontier', cur') && OrderInv(q, adjacencyMap, visited, order)
      ensures SlackKept(q, adjacencyMap, order)
      ensures old(visited) <= visited
      ensures visited == old(visited) ==> |frontier'| < |frontier|
    {
      var entry := Top(frontier);
      var u := entry.v;
      cur' := entry.key;
      hide MapInv, HeapInv, OrderInv, SlackKept, Lower, Newest, AllRelaxed, ListedOnce;
      PopKeeps(q, sources, adjacencyMap, visited, frontier, cur, entry);
      BeforeExpanding(q, sources, adjacencyMap, visited, order, u);
      if u !in visited {
        order := order + [u];
      }
      visited := visited + {u};
      frontier' := Expand(q, sources, u, frontier - multiset{entry}, cur');
      OrderStays(q, sources, old(adjacencyMap), adjacencyMap, old(visited), old(order), u);
    }

    /** Every start vertex gets distance 0 and goes onto the heap. */
    method PushSources(q: Query, sources: set<Vertex>) returns (frontier: multiset<Item>)
      requires q.g == graph && sources <= graph.vertices && adjacencyMap.Keys == graph.vertices
      requires visited == {} && forall v :: v in graph.vertices ==> adjacencyMap[v] == Blank
      modifies this`adjacencyMap
      ensures SearchInv(q, sources, frontier, 0.0)
    {
      frontier := multiset{};
      var todo := sources;
      while todo != {}
        invariant todo <= sources && adjacencyMap.Keys == graph.vertices
        invariant forall v :: v in graph.vertices ==>
                    adjacencyMap[v] == if v in sources && v !in todo then Blank.(distance := At(0.0)) else Blank
        invariant forall it :: it in frontier ==> it.key == 0.0 && it.v in sources && it.v !in todo
        invariant forall v :: v in sources && v !in todo ==> Item(0.0, v) in frontier
      {
        var v :| v in todo;
        adjacencyMap := adjacencyMap[v := adjacencyMap[v].(distance := At(0.0), parent := None)];
        frontier := frontier + multiset{Item(0.0, v)};
        todo := todo - {v};
      }
    }

    method Search(q: Query, sources: set<Vertex>)
      requires Valid() && sources <= graph.vertices && ValidQuery(q) && q.g == graph
      modifies this
      ensures Valid() && Finished(q, sources, adjacencyMap, visited, order)
    {
      Reset();
      var frontier := PushSources(q, sources);
      ghost var cur := 0.0;
      while frontier != multiset{}
        invariant visited <= graph.vertices
        invariant SearchInv(q, sources, frontier, cur) && OrderInv(q, adjacencyMap, visited, order)
        invariant SlackKept(q, adjacencyMap, order)
        decreases graph.vertices - visited, |frontier|
      {
        ghost var before := visited;
        frontier, cur := SettleNext(q, sources, frontier, cur);
        FewerUnsettled(graph.vertices, before, visited);
      }
      AllReachedSettled(adjacencyMap, visited, cur);
    }

    /**
     Shortest distances from a set of start vertices. An improvement must beat the known distance by
     more than the slack and stay below maxDistance; edges above maxEdgeCost are not used.
     */
    method ShortestPaths(sources: set<Vertex>, cost: (Edge, Vertex, Vertex) -> Distance, maxDistance: Distance,
                         slack: real, directed: bool, maxEdgeCost: Distance)
      requires Valid() && sources <= graph.vertices
      requires ValidQuery(Query(graph, cost, maxDistance, slack, directed, maxEdgeCost))
      modifies this
      ensures Valid()
      ensures Finished(Query(graph, cost, maxDistance, slack, directed, maxEdgeCost), sources, adjacencyMap, visited, order)
    {
      Search(Query(graph, cost, maxDistance, slack, directed, maxEdgeCost), sources);
    }
  }

  lemma AllReachedSettled(adj: AdjacencyMap, visited: set<Vertex>, cur: real)
    requires HeapInv(adj, visited, multiset{}, cur)
    ensures forall v :: v in adj && adj[v].distance.At? ==> v in visited
  {
    forall v | v in adj && adj[v].distance.At? ensures v in visited {
      assert Tracked(adj, visited, multiset{}, v);
    }
  }

  ghost predicate OrderInv(q: Query, adj: AdjacencyMap, visited: set<Vertex>, order: seq<Vertex>) {
    && ListedOnce(visited, order)
    && ParentsFirst(adj, order)
    && (forall v :: v in visited ==> AllRelaxed(q, adj, v))
  }

  /** The popped copy has the least key, so an unsettled vertex is popped with its present distance. */
  lemma PopKeeps(q: Query, sources: set<Vertex>, adj: AdjacencyMap, visited: set<Vertex>, frontier: multiset<Item>,
                 cur: real, top: Item)
    requires MapInv(q, sources, adj, visited) && HeapInv(adj, visited, frontier, cur)
    requires top in frontier && forall it :: it in frontier ==> top.key <= it.key
    ensures top.v in adj && adj[top.v].distance.At?
    ensures top.v !in visited ==> adj[top.v].distance.d == top.key
    ensures MapInv(q, sources, adj, visited + {top.v})
    ensures HeapInv(adj, visited + {top.v}, frontier - multiset{top}, top.key)
  {
    assert ItemOk(adj, top, cur);
    assert Tracked(adj, visited, frontier, top.v);
    forall v | v in adj ensures Tracked(adj, visited + {top.v}, frontier - multiset{top}, v) {
      assert Tracked(adj, visited, frontier, v);
    }
    forall it | it in frontier - multiset{top} ensures ItemOk(adj, it, top.key) {
      assert ItemOk(adj, it, cur);
    }
    forall v | v in visited + {top.v} ensures SettledBelow(adj, v, top.key) {
      if v in visited {
        assert SettledBelow(adj, v, cur);
      }
    }
    forall v | v in adj && adj[v].distance.At? ensures Explained(q, sources, adj, visited + {top.v}, v) {
      assert Explained(q, sources, adj, visited, v);
    }
  }

  /** What the expansion of u relies on, be it settled only now or popped again. */
  lemma BeforeExpanding(q: Query, sources: set<Vertex>, adj: AdjacencyMap, visited: set<Vertex>, order: seq<Vertex>, u: Vertex)
    requires MapInv(q, sources, adj, visited) && OrderInv(q, adj, visited, order) && SlackKept(q, adj, order)
    ensures u in visited ==> ListedOnce(visited + {u}, order) && AllRelaxed(q, adj, u)
    ensures u !in visited ==> ListedOnce(visited + {u}, order + [u]) && Newest(q, adj, order + [u], u)
    ensures u !in visited ==> SlackKept(q, adj, order + [u])
  {
    hide AllRelaxed, SlackKept;
    if u in visited {
      assert visited + {u} == visited;
    } else {
      SettlingKeepsSlack(q, sources, adj, visited, order, u);
      assert (order + [u])[..|order|] == order;
    }
  }

  lemma ParentsFirstStays(q: Query, sources: set<Vertex>, adj: AdjacencyMap, adj': AdjacencyMap,
                          visited: set<Vertex>, order: seq<Vertex>, u: Vertex)
    requires MapInv(q, sources, adj, visited) && u in adj && adj[u].distance.At? && u !in visited
    requires forall v :: v in order <==> v in visited
    requires ParentsFirst(adj, order) && Lower(adj, adj', visited + {u})
    ensures ParentsFirst(adj', order + [u])
  {
    var order' := order + [u];
    forall i | 0 <= i < |order'| ensures ParentBefore(adj', order', i) {
      if i < |order| {
        assert ParentBefore(adj, order, i);
        assert order'[..i] == order[..i] && order[i] in visited;
      } else {
        assert order'[..i] == order;
        assert Explained(q, sources, adj, visited, u);
      }
    }
  }

  lemma OrderStays(q: Query, sources: set<Vertex>, adj: AdjacencyMap, adj': AdjacencyMap, visited: set<Vertex>,
                   order: seq<Vertex>, u: Vertex)
    requires MapInv(q, sources, adj, visited) && OrderInv(q, adj, visited, order) && u in adj && adj[u].distance.At?
    requires Lower(adj, adj', visited + {u}) && AllRelaxed(q, adj', u)
    ensures OrderInv(q, adj', visited + {u}, if u in visited then order else order + [u])
  {
    forall v | v in visited + {u} ensures AllRelaxed(q, adj', v) {
      if v != u {
        AllRelaxedStays(q, adj, adj', visited + {u}, v);
      }
    }
    if u !in visited {
      ParentsFirstStays(q, sources, adj, adj', visited, order, u);
    } else {
      forall i | 0 <= i < |order| ensures ParentBefore(adj', order, i) {
        assert ParentBefore(adj, order, i);
        assert order[i] in visited;
      }
    }
  }

  ghost predicate EdgesRelaxed(q: Query, adj: AdjacencyMap, u: Vertex, es: set<Edge>) {
    forall e, z :: e in es ==> RelaxedTo(q, adj, u, e, z)
  }

  lemma NothingToRelax(q: Query, adj: AdjacencyMap, u: Vertex)
    ensures EdgesRelaxed(q, adj, u, {})
  {
  }

  lemma AllEdgesRelaxed(q: Query, adj: AdjacencyMap, u: Vertex, done: set<Edge>)
    requires EdgesRelaxed(q, adj, u, done) && u in q.g.incident && q.g.incident[u] <= done
    requires u in adj && adj[u].distance.At?
    ensures AllRelaxed(q, adj, u)
  {
  }

  lemma LowerReflexive(adj: AdjacencyMap, visited: set<Vertex>)
    ensures Lower(adj, adj, visited)
  {
  }

  lemma KeepEdges(q: Query, first: AdjacencyMap, adj: AdjacencyMap, adj': AdjacencyMap, visited: set<Vertex>,
                  u: Vertex, es: set<Edge>, e: Edge)
    requires Lower(first, adj, visited) && Lower(adj, adj', visited) && u in visited
    requires EdgesRelaxed(q, adj, u, es) && forall z :: RelaxedTo(q, adj', u, e, z)
    ensures Lower(first, adj', visited)
    ensures EdgesRelaxed(q, adj', u, es + {e})
  {
    LowerTransitive(first, adj, adj', visited);
    forall e', z | e' in es + {e} ensures RelaxedTo(q, adj', u, e', z) {
      if e' != e {
        RelaxedStays(q, adj, adj', visited, u, e', z);
      }
    }
  }

  ghost predicate RelaxedUpTo(q: Query, adj: AdjacencyMap, u: Vertex, e: Edge, zs: seq<Vertex>, n: int)
    requires n <= |zs|
  {
    forall k :: 0 <= k < n ==> RelaxedTo(q, adj, u, e, zs[k])
  }

  lemma RelaxedToAll(q: Query, adj: AdjacencyMap, u: Vertex, e: Edge, zs: seq<Vertex>)
    requires e in q.g.ends && zs == q.g.ends[e] && RelaxedUpTo(q, adj, u, e, zs, |zs|)
    ensures forall z :: RelaxedTo(q, adj, u, e, z)
  {
    forall z ensures RelaxedTo(q, adj, u, e, z) {
      if z in zs {
        var k :| 0 <= k < |zs| && zs[k] == z;
        assert RelaxedTo(q, adj, u, e, zs[k]);
      }
    }
  }

  lemma KeepRelaxed(q: Query, first: AdjacencyMap, adj: AdjacencyMap, adj': AdjacencyMap, visited: set<Vertex>,
                    u: Vertex, e: Edge, zs: seq<Vertex>, n: int)
    requires Lower(first, adj, visited) && Lower(adj, adj', visited) && u in visited && 0 <= n < |zs|
    requires RelaxedUpTo(q, adj, u, e, zs, n) && RelaxedTo(q, adj', u, e, zs[n])
    ensures Lower(first, adj', visited)
    ensures RelaxedUpTo(q, adj', u, e, zs, n + 1)
  {
    LowerTransitive(first, adj, adj', visited);
    forall k | 0 <= k < n ensures RelaxedTo(q, adj', u, e, zs[k]) {
      RelaxedStays(q, adj, adj', visited, u, e, zs[k]);
    }
  }

  // ----- What the result means for paths

  datatype Path = Start(v: Vertex) | Step(prev: Path, e: Edge, z: Vertex)

  ghost function End(p: Path): Vertex {
    match p case Start(v) => v case Step(_, _, z) => z
  }

  ghost predicate IsPath(q: Query, sources: set<Vertex>, p: Path) {
    match p
    case Start(v) => v in sources
    case Step(prev, e, z) => IsPath(q, sources, prev) && Allowed(q, End(prev), e, z)
  }

  ghost function Cost(q: Query, p: Path): real {
    match p
    case Start(_) => 0.0
    case Step(prev, e, z) => Cost(q, prev) + StepCost(q, e, End(prev), z)
  }

  ghost function StepCost(q: Query, e: Edge, u: Vertex, z: Vertex): real {
    if q.cost(e, u, z).At? then q.cost(e, u, z).d else 0.0
  }

  ghost function SlackOf(q: Query, p: Path): real {
    match p
    case Start(_) => 0.0
    case Step(prev, _, _) => SlackOf(q, prev) + q.slack
  }

  /**
   Every allowed path bounds the distance of its end, up to one slack per edge, as long as the path
   stays inside the search radius (its last edge counts without slack).
   */
  lemma {:induction false} PathBoundsDistance(q: Query, sources: set<Vertex>, adj: AdjacencyMap, visited: set<Vertex>,
                                              order: seq<Vertex>, p: Path)
    requires ValidQuery(q) && Finished(q, sources, adj, visited, order) && IsPath(q, sources, p)
    requires p.Step? ==> Below(Cost(q, p) + SlackOf(q, p.prev), q.maxDistance)
    ensures SettledBelow(adj, End(p), Cost(q, p) + SlackOf(q, p))
  {
    match p
    case Start(v) =>
      assert SettledBelow(adj, v, 0.0);
    case Step(prev, e, z) =>
      PathBoundsDistance(q, sources, adj, visited, order, prev);
      assert AllRelaxed(q, adj, End(prev));
      assert RelaxedTo(q, adj, End(prev), e, z);
  }

  /** Every finite distance is the cost of an allowed path along the parent links. */
  lemma {:induction false} DistanceIsPathCost(q: Query, sources: set<Vertex>, adj: AdjacencyMap, visited: set<Vertex>,
                                              order: seq<Vertex>, i: int) returns (p: Path)
    requires Finished(q, sources, adj, visited, order) && 0 <= i < |order|
    ensures IsPath(q, sources, p) && End(p) == order[i]
    ensures order[i] in adj && adj[order[i]].distance == At(Cost(q, p))
    ensures p.Step? ==> Below(Cost(q, p), q.maxDistance)
  {
    var v := order[i];
    assert AllRelaxed(q, adj, v);
    assert Explained(q, sources, adj, visited, v);
    if adj[v].parent.None? {
      p := Start(v);
    } else {
      assert ParentBefore(adj, order, i);
      var k :| 0 <= k < i && order[k] == adj[v].parent.value;
      var prev := DistanceIsPathCost(q, sources, adj, visited, order, k);
      p := Step(prev, adj[v].edge.value, v);
    }
  }

  ghost predicate InRadius(q: Query, sources: set<Vertex>, p: Path, z: Vertex) {
    IsPath(q, sources, p) && End(p) == z && (p.Step? ==> Below(Cost(q, p), q.maxDistance))
  }

  lemma {:induction false} NoSlack(q: Query, p: Path)
    requires q.slack == 0.0
    ensures SlackOf(q, p) == 0.0
  {
    if p.Step? {
      NoSlack(q, p.prev);
    }
  }

  /** Without slack the search is exact: v is reached iff a path in the radius leads to it, at the least cost. */
  lemma ExactWithoutSlack(q: Query, sources: set<Vertex>, adj: AdjacencyMap, visited: set<Vertex>,
                          order: seq<Vertex>, v: Vertex)
    requires ValidQuery(q) && q.slack == 0.0 && Finished(q, sources, adj, visited, order) && v in adj
    ensures adj[v].distance.At? <==> exists p :: InRadius(q, sources, p, v)
    ensures adj[v].distance.At? ==> exists p :: InRadius(q, sources, p, v) && Cost(q, p) == adj[v].distance.d
    ensures forall p :: InRadius(q, sources, p, v) ==> adj[v].distance.At? && adj[v].distance.d <= Cost(q, p)
  {
    forall p | InRadius(q, sources, p, v)
      ensures adj[v].distance.At? && adj[v].distance.d <= Cost(q, p)
    {
      NoSlack(q, p);
      if p.Step? {
        NoSlack(q, p.prev);
      }
      PathBoundsDistance(q, sources, adj, visited, order, p);
    }
    if adj[v].distance.At? {
      var i :| 0 <= i < |order| && order[i] == v;
      var p := DistanceIsPathCost(q, sources, adj, visited, order, i);
      assert InRadius(q, sources, p, v);
    }
  }
}
