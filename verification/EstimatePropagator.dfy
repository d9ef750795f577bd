/**
 Propagation of initial estimates over a hypergraph: a search with a decrease-key queue in which the
 cost of reaching a vertex depends on the set of vertices that are already initialised.
 */
module EstimatePropagator {
  import opened GraphTypes
  import opened Options

  /** An edge may have empty slots in its vertex list. */
  datatype Graph = Graph(vertices: set<Vertex>, incident: map<Vertex, set<Edge>>, ends: map<Edge, seq<Option<Vertex>>>)

  ghost predicate ValidEdge(g: Graph, v: Vertex, e: Edge) {
    e in g.ends && Some(v) in g.ends[e] && forall z :: Some(z) in g.ends[e] ==> z in g.vertices
  }

  ghost predicate ValidVertex(g: Graph, v: Vertex) {
    v in g.incident && forall e :: e in g.incident[v] ==> ValidEdge(g, v, e)
  }

  ghost predicate ValidGraph(g: Graph) {
    forall v :: v in g.vertices ==> ValidVertex(g, v)
  }

  /** The parameters of one propagation; the cost may be any function. */
  datatype Query = Query(g: Graph, cost: (Edge, set<Vertex>, Vertex) -> Distance, maxDistance: Distance, maxEdgeCost: Distance)

  /** The edge may lead from the from-set to z. */
  ghost predicate Usable(q: Query, e: Edge, from: set<Vertex>, z: Vertex) {
    q.cost(e, from, z).At? && q.cost(e, from, z).d > 0.0 && Below(q.cost(e, from, z).d, q.maxEdgeCost)
  }

  /** queueKey stands for the iterator into the queue; it counts only while inQueue holds. */
  datatype Entry = Entry(
    child: Option<Vertex>,
    parents: set<Vertex>,
    edge: Option<Edge>,
    distance: Distance,
    level: int,
    inQueue: bool,
    queueKey: real)

  const ResetEntry := Entry(None, {}, None, Far, -1, false, 0.0)

  type AdjacencyMap = map<Vertex, Entry>

  ghost predicate Untouched(entry: Entry) {
    entry.parents == {} && entry.edge == None && entry.distance == Far && entry.level == -1 && !entry.inQueue
  }

  ghost predicate Reached(adj: AdjacencyMap, v: Vertex) {
    v in adj && adj[v].distance.At?
  }

  // ----- Invariants

  /** The search looks from u over e at z. */
  ghost predicate Linked(g: Graph, u: Vertex, e: Edge, z: Vertex) {
    u in g.incident && e in g.incident[u] && OnEdge(g, e, z)
  }

  /**
   u led to v: it belongs to the from-set of v and was settled before, on a lower level, and the distance of v is
   that of u plus what the edge costs from this from-set.
   */
  ghost predicate SettledParent(q: Query, adj: AdjacencyMap, settled: set<Vertex>, u: Vertex, v: Vertex)
    requires Reached(adj, v)
  {
    && adj[v].edge.Some? && Linked(q.g, u, adj[v].edge.value, v) && Usable(q, adj[v].edge.value, adj[v].parents, v)
    && u in adj[v].parents && u in settled && Reached(adj, u) && adj[u].level < adj[v].level
    && adj[v].distance.d == adj[u].distance.d + q.cost(adj[v].edge.value, adj[v].parents, v).d
  }

  ghost predicate Explained(q: Query, sources: set<Vertex>, adj: AdjacencyMap, settled: set<Vertex>, v: Vertex)
    requires Reached(adj, v)
  {
    if v in sources then adj[v].distance.d == 0.0 && adj[v].level == 0
    else
      && adj[v].level > 0 && adj[v].edge.Some? && adj[v].distance.d > 0.0
      && Below(adj[v].distance.d, q.maxDistance)
      && v !in adj[v].parents
      && (forall p :: p in adj[v].parents ==> Reached(adj, p) && OnEdge(q.g, adj[v].edge.value, p))
      && exists u :: SettledParent(q, adj, settled, u, v)
  }

  ghost predicate MapInv(q: Query, sources: set<Vertex>, adj: AdjacencyMap, visited: set<Vertex>) {
    && adj.Keys == q.g.vertices
    && visited <= adj.Keys
    && (forall v :: v in sources ==> Reached(adj, v))
    && (forall v {:trigger Explained(q, sources, adj, visited, v)} :: Reached(adj, v) ==> Explained(q, sources, adj, visited, v))
    && (forall v :: v in adj ==> adj[v].distance.At? || Untouched(adj[v]))
    && (forall v :: v in adj ==> adj[v].child == None || adj[v].child == Some(v))
  }

  ghost predicate ItemOk(adj: AdjacencyMap, visited: set<Vertex>, queue: multiset<Item>, it: Item, cur: real) {
    && it.v in adj && it.v !in visited && adj[it.v].inQueue
    && adj[it.v].distance == At(it.key) && cur <= it.key && queue[it] == 1
  }

  ghost predicate QueuedOk(adj: AdjacencyMap, visited: set<Vertex>, queue: multiset<Item>, v: Vertex)
    requires v in adj
  {
    && (adj[v].inQueue <==> adj[v].distance.At? && v !in visited)
    && (adj[v].inQueue ==> adj[v].distance == At(adj[v].queueKey) && Item(adj[v].queueKey, v) in queue)
  }

  ghost predicate SettledBelow(adj: AdjacencyMap, v: Vertex, cur: real) {
    Reached(adj, v) && adj[v].distance.d <= cur
  }

  ghost predicate QueueInv(adj: AdjacencyMap, visited: set<Vertex>, queue: multiset<Item>, cur: real) {
    && (forall it :: it in queue ==> ItemOk(adj, visited, queue, it, cur))
    && (forall v :: v in adj ==> QueuedOk(adj, visited, queue, v))
    && (forall v :: v in visited ==> SettledBelow(adj, v, cur))
  }

  /** Distances only go down, and settled entries stay as they are. */
  ghost predicate Lower(adj: AdjacencyMap, adj': AdjacencyMap, visited: set<Vertex>) {
    && adj.Keys == adj'.Keys
    && (forall v :: v in adj ==> NotAbove(adj'[v].distance, adj[v].distance) && adj'[v].child == adj[v].child)
    && (forall v :: v in visited && v in adj ==> adj'[v] == adj[v])
  }

  lemma LowerTransitive(a: AdjacencyMap, b: AdjacencyMap, c: AdjacencyMap, visited: set<Vertex>)
    requires Lower(a, b, visited) && Lower(b, c, visited)
    ensures Lower(a, c, visited)
  {
    forall v | v in a ensures NotAbove(c[v].distance, a[v].distance) {
      assert NotAbove(b[v].distance, a[v].distance) && NotAbove(c[v].distance, b[v].distance);
    }
  }

  // ----- One improvement

  /** Going from u over e brings z nearer. */
  ghost predicate Gains(q: Query, adj: AdjacencyMap, u: Vertex, e: Edge, from: set<Vertex>, z: Vertex)
    requires Reached(adj, u) && z in adj
  {
    && Usable(q, e, from, z)
    && Below(adj[u].distance.d + q.cost(e, from, z).d, adj[z].distance)
    && Below(adj[u].distance.d + q.cost(e, from, z).d, q.maxDistance)
  }

  /** The entry of z, waiting in the queue, after a gain. */
  ghost function Gained(q: Query, adj: AdjacencyMap, u: Vertex, e: Edge, from: set<Vertex>, level: int, z: Vertex): Entry
    requires Reached(adj, u) && z in adj && Gains(q, adj, u, e, from, z)
  {
    var zDistance := adj[u].distance.d + q.cost(e, from, z).d;
    Entry(adj[z].child, from, Some(e), At(zDistance), level, true, zDistance)
  }

  /** The entry of z after its turn on the edge e of u, on which the given vertices were initialised. */
  ghost function AfterTurn(q: Query, adj: AdjacencyMap, u: Vertex, e: Edge, initialized: set<Vertex>, level: int, z: Vertex): Entry
    requires Reached(adj, u) && z in adj
  {
    if z != u && Gains(q, adj, u, e, initialized - {z}, z) then Gained(q, adj, u, e, initialized - {z}, level, z) else adj[z]
  }

  /** The entries after all slots of e had their turn: each vertex on e gains at most once. */
  ghost predicate EdgeRelaxed(q: Query, adj: AdjacencyMap, adj': AdjacencyMap, u: Vertex, e: Edge, initialized: set<Vertex>,
                              level: int, zs: seq<Option<Vertex>>)
  {
    && Reached(adj, u) && adj'.Keys == adj.Keys
    && forall z :: z in adj ==> adj'[z] == if Some(z) in zs then AfterTurn(q, adj, u, e, initialized, level, z) else adj[z]
  }

  /** From u over e, with all the vertices on e that were initialised before, and one level above them. */
  ghost predicate EdgeTaken(q: Query, adj: AdjacencyMap, adj': AdjacencyMap, u: Vertex, e: Edge) {
    e in q.g.ends && exists level :: NextLevel(adj, InitializedSet(q.g, adj, e), level)
                                     && EdgeRelaxed(q, adj, adj', u, e, InitializedSet(q.g, adj, e), level, q.g.ends[e])
  }

  /** One level above all that were initialised. */
  ghost predicate NextLevel(adj: AdjacencyMap, initialized: set<Vertex>, level: int) {
    && (forall z :: z in initialized && z in adj ==> adj[z].level < level)
    && exists z :: z in initialized && z in adj && adj[z].level == level - 1
  }

  ghost predicate MayImprove(q: Query, adj: AdjacencyMap, visited: set<Vertex>, u: Vertex, e: Edge,
                             from: set<Vertex>, maxFrontier: int, z: Vertex)
  {
    && u in visited && Reached(adj, u) && u in from && z !in from && z in adj && z !in visited
    && (forall p :: p in from ==> Reached(adj, p) && OnEdge(q.g, e, p))
    && adj[u].level <= maxFrontier && Linked(q.g, u, e, z) && Gains(q, adj, u, e, from, z)
  }

  lemma StartsAreNearest(q: Query, sources: set<Vertex>, adj: AdjacencyMap, visited: set<Vertex>, z: Vertex)
    requires MapInv(q, sources, adj, visited) && z in sources
    ensures Reached(adj, z) && adj[z].distance.d == 0.0
  {
    assert Reached(adj, z) && Explained(q, sources, adj, visited, z);
  }

  lemma ImproveKeepsMap(q: Query, sources: set<Vertex>, adj: AdjacencyMap, visited: set<Vertex>,
                        u: Vertex, e: Edge, from: set<Vertex>, maxFrontier: int, z: Vertex, entry: Entry)
    requires MapInv(q, sources, adj, visited) && MayImprove(q, adj, visited, u, e, from, maxFrontier, z)
    requires adj[u].distance.d >= 0.0 && adj[u].level >= 0 && entry == Gained(q, adj, u, e, from, maxFrontier + 1, z)
    ensures MapInv(q, sources, adj[z := entry], visited) && Lower(adj, adj[z := entry], visited)
  {
    var adj' := adj[z := entry];
    if z in sources {
      StartsAreNearest(q, sources, adj, visited, z);
    }
    forall v | Reached(adj', v)
      ensures Explained(q, sources, adj', visited, v)
    {
      if v == z {
        assert SettledParent(q, adj', visited, u, z);
      } else {
        assert Explained(q, sources, adj, visited, v);
        ExplainedStays(q, sources, adj, visited, z, entry, v);
      }
    }
  }

  lemma ExplainedStays(q: Query, sources: set<Vertex>, adj: AdjacencyMap, visited: set<Vertex>, z: Vertex,
                       entry: Entry, v: Vertex)
    requires Reached(adj, v) && Explained(q, sources, adj, visited, v) && z in adj && z !in visited && v != z && entry.distance.At?
    ensures Explained(q, sources, adj[z := entry], visited, v)
  {
    if v !in sources {
      var u :| SettledParent(q, adj, visited, u, v);
      assert SettledParent(q, adj[z := entry], visited, u, v);
    }
  }

  /** The queue after an entry is pushed: its old position, if any, is given up. */
  ghost function Pushed(queue: multiset<Item>, entry: Entry, v: Vertex): multiset<Item>
    requires entry.distance.At?
  {
    (if entry.inQueue then queue - multiset{Item(entry.queueKey, v)} else queue) + multiset{Item(entry.distance.d, v)}
  }

  lemma PushKeepsQueue(adj: AdjacencyMap, visited: set<Vertex>, queue: multiset<Item>, cur: real, z: Vertex, entry: Entry)
    requires QueueInv(adj, visited, queue, cur) && z in adj && z !in visited
    requires entry.distance.At? && cur <= entry.distance.d
    requires entry.inQueue == adj[z].inQueue && entry.queueKey == adj[z].queueKey
    ensures QueueInv(adj[z := entry.(inQueue := true, queueKey := entry.distance.d)], visited, Pushed(queue, entry, z), cur)
  {
    var adj' := adj[z := entry.(inQueue := true, queueKey := entry.distance.d)];
    var queue' := Pushed(queue, entry, z);
    assert QueuedOk(adj, visited, queue, z);
    forall it | it in queue' ensures ItemOk(adj', visited, queue', it, cur) {
      ItemStays(adj, visited, queue, cur, z, entry, it);
    }
    forall v | v in adj' ensures QueuedOk(adj', visited, queue', v) {
      assert QueuedOk(adj, visited, queue, v);
    }
    forall v | v in visited ensures SettledBelow(adj', v, cur) {
      assert SettledBelow(adj, v, cur);
    }
  }

  lemma ItemStays(adj: AdjacencyMap, visited: set<Vertex>, queue: multiset<Item>, cur: real, z: Vertex, entry: Entry,
                  it: Item)
    requires QueueInv(adj, visited, queue, cur) && z in adj && z !in visited && QueuedOk(adj, visited, queue, z)
    requires entry.distance.At? && cur <= entry.distance.d
    requires entry.inQueue == adj[z].inQueue && entry.queueKey == adj[z].queueKey
    requires it in Pushed(queue, entry, z)
    ensures ItemOk(adj[z := entry.(inQueue := true, queueKey := entry.distance.d)], visited, Pushed(queue, entry, z), it, cur)
  {
    if it in queue {
      assert ItemOk(adj, visited, queue, it, cur);
    }
  }

  /** Nothing more can be gained at z from u over e with the given from-set. */
  ghost predicate RelaxedTo(q: Query, adj: AdjacencyMap, u: Vertex, e: Edge, initialized: set<Vertex>, z: Vertex)
    requires Reached(adj, u)
  {
    z != u && z in adj && Usable(q, e, initialized - {z}, z) ==>
      var zDistance := adj[u].distance.d + q.cost(e, initialized - {z}, z).d;
      !(Below(zDistance, adj[z].distance) && Below(zDistance, q.maxDistance))
  }

  lemma RelaxedStays(q: Query, adj: AdjacencyMap, adj': AdjacencyMap, visited: set<Vertex>, u: Vertex, e: Edge,
                     initialized: set<Vertex>, z: Vertex)
    requires Reached(adj, u) && u in visited && Lower(adj, adj', visited) && RelaxedTo(q, adj, u, e, initialized, z)
    ensures Reached(adj', u) && RelaxedTo(q, adj', u, e, initialized, z)
  {
    if z in adj {
      assert NotAbove(adj'[z].distance, adj[z].distance);
    }
  }

  class EstimatePropagator {
    const graph: Graph
    var adjacencyMap: AdjacencyMap
    var visited: set<Vertex>
    ghost var order: seq<Vertex>

    ghost predicate Valid()
      reads this
    {
      && ValidGraph(graph)
      && adjacencyMap.Keys == graph.vertices
      && visited <= graph.vertices
      && (forall v :: v in adjacencyMap && v !in visited ==> Untouched(adjacencyMap[v]))
      && (forall v :: v in adjacencyMap ==> adjacencyMap[v].child == None || adjacencyMap[v].child == Some(v))
    }

    /** Every entry still names its vertex, as the constructor leaves it. */
    ghost predicate Intact()
      reads this
    {
      forall v :: v in adjacencyMap ==> adjacencyMap[v].child == Some(v)
    }

    constructor (g: Graph)
      requires ValidGraph(g)
      ensures Valid() && graph == g && visited == {} && order == []
      ensures forall v :: v in g.vertices ==> adjacencyMap[v] == ResetEntry.(child := Some(v))
    {
      graph := g;
      adjacencyMap := map v | v in g.vertices :: ResetEntry.(child := Some(v));
      visited := {};
      order := [];
    }

    /** Resets the entries of the visited vertices; like all other fields, their child becomes empty. */
    method Reset()
      requires Valid()
      modifies this
      ensures Valid() && visited == {} && order == []
      ensures forall v :: v in graph.vertices ==>
                adjacencyMap[v] == if v in old(visited) then ResetEntry else old(adjacencyMap)[v]
      ensures old(Intact()) ==> (Intact() <==> old(visited) == {})
    {
      var todo := visited;
      while todo != {}
        invariant todo <= visited && visited == old(visited) && adjacencyMap.Keys == graph.vertices
        invariant forall v :: v in graph.vertices ==>
                    adjacencyMap[v] == if v in visited && v !in todo then ResetEntry else old(adjacencyMap)[v]
      {
        var v :| v in todo;
        adjacencyMap := adjacencyMap[v := ResetEntry];
        todo := todo - {v};
      }
      visited := {};
      order := [];
    }

    ghost predicate SearchInv(q: Query, sources: set<Vertex>, queue: multiset<Item>, cur: real)
      reads this
    {
      MapInv(q, sources, adjacencyMap, visited) && QueueInv(adjacencyMap, visited, queue, cur)
    }

    /** Queue with decrease-key: an entry that waits already is taken out and inserted anew. */
    method Push(queue: multiset<Item>, v: Vertex) returns (queue': multiset<Item>)
      requires v in adjacencyMap && adjacencyMap[v].distance.At?
      modifies this`adjacencyMap
      ensures queue' == Pushed(queue, old(adjacencyMap)[v], v)
      ensures adjacencyMap == old(adjacencyMap)[v := old(adjacencyMap)[v].(inQueue := true, queueKey := old(adjacencyMap)[v].distance.d)]
    {
      var entry := adjacencyMap[v];
      queue' := queue;
      if entry.inQueue {
        queue' := queue' - multiset{Item(entry.queueKey, v)};
      }
      queue' := queue' + multiset{Item(entry.distance.d, v)};
      adjacencyMap := adjacencyMap[v := entry.(inQueue := true, queueKey := entry.distance.d)];
    }

    method Improve(q: Query, ghost sources: set<Vertex>, u: Vertex, e: Edge, from: set<Vertex>, maxFrontier: int, z: Vertex,
                   queue: multiset<Item>, ghost cur: real) returns (queue': multiset<Item>)
      requires SearchInv(q, sources, queue, cur)
      requires MayImprove(q, adjacencyMap, visited, u, e, from, maxFrontier, z)
      requires adjacencyMap[u].distance.d == cur >= 0.0 && adjacencyMap[u].level >= 0
      modifies this`adjacencyMap
      ensures SearchInv(q, sources, queue', cur)
      ensures Lower(old(adjacencyMap), adjacencyMap, visited)
      ensures adjacencyMap == old(adjacencyMap)[z := Gained(q, old(adjacencyMap), u, e, from, maxFrontier + 1, z)]
    {
      hide MapInv, QueueInv;
      ghost var adj := adjacencyMap;
      var zDistance := adjacencyMap[u].distance.d + q.cost(e, from, z).d;
      var entry := adjacencyMap[z].(distance := At(zDistance), parents := from, edge := Some(e), level := maxFrontier + 1);
      adjacencyMap := adjacencyMap[z := entry];
      queue' := Push(queue, z);
      assert adjacencyMap == adj[z := entry.(inQueue := true, queueKey := zDistance)];
      PushKeepsQueue(adj, visited, queue, cur, z, entry);
      ImproveKeepsMap(q, sources, adj, visited, u, e, from, maxFrontier, z, entry.(inQueue := true, queueKey := zDistance));
    }

    /** The initialised vertices of an edge, and the highest level among them. */
    method InitializedOn(e: Edge) returns (initialized: set<Vertex>, maxFrontier: int)
      requires e in graph.ends && forall z :: Some(z) in graph.ends[e] ==> z in adjacencyMap
      ensures initialized == InitializedSet(graph, adjacencyMap, e)
      ensures forall z :: z in initialized ==> z in adjacencyMap && adjacencyMap[z].level <= maxFrontier
      ensures maxFrontier == -1 || NextLevel(adjacencyMap, initialized, maxFrontier + 1)
    {
      initialized, maxFrontier := {}, -1;
      var zs := graph.ends[e];
      var i := 0;
      while i < |zs|
        invariant 0 <= i <= |zs|
        invariant forall z :: z in initialized <==> (exists k :: 0 <= k < i && zs[k] == Some(z)) && Reached(adjacencyMap, z)
        invariant forall z :: z in initialized ==> z in adjacencyMap && adjacencyMap[z].level <= maxFrontier
        invariant maxFrontier == -1 || exists z :: z in initialized && z in adjacencyMap && adjacencyMap[z].level == maxFrontier
      {
        if zs[i].Some? {
          var z := zs[i].value;
          assert Some(z) in zs;
          if adjacencyMap[z].distance.At? {
            initialized := initialized + {z};
            maxFrontier := if maxFrontier < adjacencyMap[z].level then adjacencyMap[z].level else maxFrontier;
          }
        }
        i := i + 1;
      }
    }

    ghost predicate MayExpand(q: Query, sources: set<Vertex>, u: Vertex, queue: multiset<Item>, cur: real)
      reads this
    {
      && ValidGraph(q.g) && q.g == graph && SearchInv(q, sources, queue, cur)
      && u in visited && Reached(adjacencyMap, u) && adjacencyMap[u].distance.d == cur
    }

    ghost predicate FromOk(u: Vertex, e: Edge, initialized: set<Vertex>, maxFrontier: int)
      reads this
    {
      && u in initialized && u in adjacencyMap && adjacencyMap[u].level <= maxFrontier
      && forall p :: p in initialized ==> Reached(adjacencyMap, p) && OnEdge(graph, e, p)
    }

    /** The inner loop's step for z: the from-set leaves out z itself. */
    method Relax(q: Query, ghost sources: set<Vertex>, u: Vertex, e: Edge, ghost initialized: set<Vertex>, from: set<Vertex>,
                 maxFrontier: int, z: Vertex, queue: multiset<Item>, ghost cur: real) returns (queue': multiset<Item>)
      requires MayExpand(q, sources, u, queue, cur) && FromOk(u, e, initialized, maxFrontier)
      requires z in adjacencyMap && z != u && from == initialized - {z} && Linked(q.g, u, e, z)
      modifies this`adjacencyMap
      ensures MayExpand(q, sources, u, queue', cur) && FromOk(u, e, initialized, maxFrontier)
      ensures Lower(old(adjacencyMap), adjacencyMap, visited)
      ensures RelaxedTo(q, adjacencyMap, u, e, initialized, z)
      ensures adjacencyMap == old(adjacencyMap)[z := AfterTurn(q, old(adjacencyMap), u, e, initialized, maxFrontier + 1, z)]
    {
      queue' := queue;
      var edgeDistance := q.cost(e, from, z);
      if edgeDistance.At? && edgeDistance.d > 0.0 && Below(edgeDistance.d, q.maxEdgeCost) {
        StartDistance(q, sources, adjacencyMap, visited, u);
        var zDistance := adjacencyMap[u].distance.d + edgeDistance.d;
        if Below(zDistance, adjacencyMap[z].distance) && Below(zDistance, q.maxDistance) {
          NotSettled(adjacencyMap, visited, cur, z, zDistance);
          queue' := Improve(q, sources, u, e, from, maxFrontier, z, queue, cur);
          assert adjacencyMap[u] == old(adjacencyMap)[u];
        }
      }
    }

    /** One slot of the edge; the vertex is taken out of the from-set for its own turn. */
    method RelaxSlot(q: Query, ghost sources: set<Vertex>, u: Vertex, e: Edge, from: set<Vertex>, maxFrontier: int,
                     slot: Option<Vertex>,
                     queue: multiset<Item>, ghost cur: real) returns (from': set<Vertex>, queue': multiset<Item>)
      requires MayExpand(q, sources, u, queue, cur) && FromOk(u, e, from, maxFrontier)
      requires slot.Some? ==> slot.value in adjacencyMap && Linked(q.g, u, e, slot.value)
      modifies this`adjacencyMap
      ensures MayExpand(q, sources, u, queue', cur) && FromOk(u, e, from, maxFrontier) && from' == from
      ensures Lower(old(adjacencyMap), adjacencyMap, visited)
      ensures slot.Some? ==> RelaxedTo(q, adjacencyMap, u, e, from, slot.value)
      ensures adjacencyMap == if slot.None? then old(adjacencyMap)
              else old(adjacencyMap)[slot.value := AfterTurn(q, old(adjacencyMap), u, e, from, maxFrontier + 1, slot.value)]
    {
      from', queue' := from, queue;
      if slot.Some? && slot.value != u {
        var z := slot.value;
        var wasInitialized := z in from';
        from' := from' - {z};
        queue' := Relax(q, sources, u, e, from, from', maxFrontier, z, queue', cur);
        if wasInitialized {
          from' := from' + {z};
        }
      }
    }

    /** All slots of one edge, with the from-set that was found on it beforehand. */
    method RelaxSlots(q: Query, ghost sources: set<Vertex>, u: Vertex, e: Edge, from: set<Vertex>, maxFrontier: int,
                      zs: seq<Option<Vertex>>,
                      queue: multiset<Item>, ghost cur: real) returns (queue': multiset<Item>)
      requires MayExpand(q, sources, u, queue, cur) && FromOk(u, e, from, maxFrontier)
      requires forall k :: 0 <= k < |zs| && zs[k].Some? ==> zs[k].value in graph.vertices && Linked(q.g, u, e, zs[k].value)
      modifies this`adjacencyMap
      ensures MayExpand(q, sources, u, queue', cur)
      ensures Lower(old(adjacencyMap), adjacencyMap, visited)
      ensures RelaxedUpTo(q, adjacencyMap, u, e, from, zs, |zs|)
      ensures EdgeRelaxed(q, old(adjacencyMap), adjacencyMap, u, e, from, maxFrontier + 1, zs)
    {
      hide EdgeRelaxed, Explained, QueueInv;
      var initialized := from;
      queue' := queue;
      NoTurnYet(q, adjacencyMap, u, e, from, maxFrontier + 1);
      assert zs[..0] == [];
      var i := 0;
      while i < |zs|
        invariant 0 <= i <= |zs| && initialized == from
        invariant MayExpand(q, sources, u, queue', cur) && FromOk(u, e, from, maxFrontier)
        invariant Lower(old(adjacencyMap), adjacencyMap, visited)
        invariant RelaxedUpTo(q, adjacencyMap, u, e, from, zs, i)
        invariant EdgeRelaxed(q, old(adjacencyMap), adjacencyMap, u, e, from, maxFrontier + 1, zs[..i])
      {
        ghost var before := adjacencyMap;
        initialized, queue' := RelaxSlot(q, sources, u, e, initialized, maxFrontier, zs[i], queue', cur);
        KeepRelaxed(q, old(adjacencyMap), before, adjacencyMap, visited, u, e, from, zs, i);
        OneMoreTurn(q, old(adjacencyMap), before, adjacencyMap, u, e, from, maxFrontier + 1, zs, i);
        i := i + 1;
      }
      assert zs[..i] == zs;
    }

    /** All vertices of one edge of the settled vertex u, which is the last in the order. */
    method RelaxEdge(q: Query, ghost sources: set<Vertex>, u: Vertex, e: Edge, queue: multiset<Item>, ghost cur: real)
      returns (queue': multiset<Item>)
      requires MayExpand(q, sources, u, queue, cur) && ValidEdge(q.g, u, e) && u in q.g.incident && e in q.g.incident[u]
      requires LastSettled(u)
      modifies this`adjacencyMap
      ensures MayExpand(q, sources, u, queue', cur) && LastSettled(u)
      ensures Lower(old(adjacencyMap), adjacencyMap, visited)
      ensures order != [] && ExpandedOver(q, adjacencyMap, order, |order| - 1, e)
      ensures EdgeTaken(q, old(adjacencyMap), adjacencyMap, u, e)
    {
      hide EdgeRelaxed, QueueInv, Lower, RelaxedUpTo, ExpandedOver, Explained;
      SlotsAreVertices(q.g, u, e);
      var initialized, maxFrontier := InitializedOn(e);
      StartDistance(q, sources, adjacencyMap, visited, u);
      queue' := RelaxSlots(q, sources, u, e, initialized, maxFrontier, q.g.ends[e], queue, cur);
      EdgeDone(q, old(adjacencyMap), adjacencyMap, visited, order, u, e, initialized);
      forall v | v in order ensures Reached(adjacencyMap, v) {
        ReachedStays(old(adjacencyMap), adjacencyMap, visited, v);
      }
    }

    ghost predicate LastSettled(u: Vertex)
      reads this
    {
      && order != [] && order[|order| - 1] == u
      && forall v :: v in order ==> v in visited && Reached(adjacencyMap, v)
    }

    /** One more edge of u, after those in done. */
    method ExpandEdge(q: Query, ghost sources: set<Vertex>, u: Vertex, e: Edge, ghost done: set<Edge>,
                      ghost first: AdjacencyMap,
                      queue: multiset<Item>, ghost cur: real) returns (queue': multiset<Item>)
      requires MayExpand(q, sources, u, queue, cur) && LastSettled(u)
      requires u in q.g.incident && e in q.g.incident[u] && ValidVertex(q.g, u)
      requires Lower(first, adjacencyMap, visited) && EdgesExpanded(q, adjacencyMap, order, done)
      modifies this`adjacencyMap
      ensures MayExpand(q, sources, u, queue', cur) && LastSettled(u)
      ensures Lower(first, adjacencyMap, visited) && EdgesExpanded(q, adjacencyMap, order, done + {e})
    {
      hide SearchInv, EdgesExpanded, ExpandedOver, Lower, ValidGraph;
      ghost var before := adjacencyMap;
      queue' := RelaxEdge(q, sources, u, e, queue, cur);
      KeepEdges(q, first, before, adjacencyMap, visited, order, done, e);
    }

    /** All edges of the settled vertex u, which is the last in the order. */
    method Expand(q: Query, ghost sources: set<Vertex>, u: Vertex, queue: multiset<Item>, ghost cur: real)
      returns (queue': multiset<Item>)
      requires MayExpand(q, sources, u, queue, cur) && LastSettled(u)
      modifies this`adjacencyMap
      ensures SearchInv(q, sources, queue', cur)
      ensures Lower(old(adjacencyMap), adjacencyMap, visited)
      ensures order != [] && Expanded(q, adjacencyMap, order, |order| - 1)
    {
      queue' := queue;
      assert ValidVertex(q.g, u);
      var edges := q.g.incident[u];
      var todo := edges;
      ghost var done: set<Edge> := {};
      while todo != {}
        invariant todo <= edges <= done + todo
        invariant MayExpand(q, sources, u, queue', cur) && LastSettled(u)
        invariant Lower(old(adjacencyMap), adjacencyMap, visited)
        invariant EdgesExpanded(q, adjacencyMap, order, done)
      {
        var e :| e in todo;
        queue' := ExpandEdge(q, sources, u, e, done, old(adjacencyMap), queue', cur);
        todo, done := todo - {e}, done + {e};
      }
      AllEdgesExpanded(q, adjacencyMap, order, u, done);
    }

    ghost predicate RunInv(q: Query, sources: set<Vertex>, queue: multiset<Item>, cur: real, trace: seq<Action>)
      reads this
    {
      && ValidGraph(q.g) && q.g == graph && SearchInv(q, sources, queue, cur)
      && OrderInv(q, adjacencyMap, visited, order) && trace == ActionsOf(adjacencyMap, order)
    }

    /** The first entry of the queue leaves it. */
    method Pop(q: Query, ghost sources: set<Vertex>, queue: multiset<Item>, ghost cur: real)
      returns (v: Vertex, queue': multiset<Item>, ghost cur': real)
      requires SearchInv(q, sources, queue, cur) && queue != multiset{}
      modifies this`adjacencyMap
      ensures v !in visited && Reached(old(adjacencyMap), v) && old(adjacencyMap)[v].distance.d == cur'
      ensures adjacencyMap == old(adjacencyMap)[v := old(adjacencyMap)[v].(inQueue := false)]
      ensures MapInv(q, sources, adjacencyMap, visited + {v}) && QueueInv(adjacencyMap, visited + {v}, queue', cur')
      ensures Lower(old(adjacencyMap), adjacencyMap, visited)
    {
      var top := Top(queue);
      PopKeeps(q, sources, adjacencyMap, visited, queue, cur, top);
      v, queue', cur' := top.v, queue - multiset{top}, top.key;
      adjacencyMap := adjacencyMap[v := adjacencyMap[v].(inQueue := false)];
    }

    /** Marks the vertex that just left the queue as settled and expands it; before is the map with it queued. */
    method Settle(q: Query, ghost sources: set<Vertex>, ghost before: AdjacencyMap, u: Vertex, queue: multiset<Item>,
                  ghost cur: real)
      returns (queue': multiset<Item>)
      requires ValidGraph(q.g) && q.g == graph && OrderInv(q, before, visited, order)
      requires u !in visited && Reached(before, u) && before[u].distance.d == cur
      requires adjacencyMap == before[u := before[u].(inQueue := false)] && Lower(before, adjacencyMap, visited)
      requires MapInv(q, sources, adjacencyMap, visited + {u}) && QueueInv(adjacencyMap, visited + {u}, queue, cur)
      modifies this
      ensures SearchInv(q, sources, queue', cur) && OrderInv(q, adjacencyMap, visited, order)
      ensures visited == old(visited) + {u} && SameChildren(before, adjacencyMap)
      ensures ActionsOf(adjacencyMap, order)
           == ActionsOf(before, old(order)) + if before[u].level > 0 then [Action(before[u].edge, before[u].parents, u)] else []
    {
      visited, order := visited + {u}, order + [u];
      ghost var popped := adjacencyMap;
      queue' := Expand(q, sources, u, queue, cur);
      SettleKeeps(q, before, popped, adjacencyMap, old(visited), old(order), u, cur);
    }

    /**
     Takes the nearest entry off the queue, applies the action unless it is a start, and settles it.
     An entry that names no vertex ends the run: there is nothing to go on from.
     */
    method SettleNext(q: Query, ghost sources: set<Vertex>, queue: multiset<Item>, ghost cur: real, trace: seq<Action>)
      returns (ok: bool, queue': multiset<Item>, ghost cur': real, trace': seq<Action>)
      requires RunInv(q, sources, queue, cur, trace) && queue != multiset{}
      modifies this
      ensures SameChildren(old(adjacencyMap), adjacencyMap)
      ensures !ok ==> Cut(q, sources, adjacencyMap)
      ensures ok ==> RunInv(q, sources, queue', cur', trace')
      ensures ok ==> old(visited) < visited && forall v :: v in visited && v !in old(visited) ==> adjacencyMap[v].child == Some(v)
    {
      hide MapInv, QueueInv, OrderInv, Cut, ValidGraph, Lower;
      ghost var adj := adjacencyMap;
      var v;
      v, queue', cur' := Pop(q, sources, queue, cur);
      var entry := adjacencyMap[v];
      trace' := trace;
      if entry.child.None? {
        CutHere(q, sources, adjacencyMap, visited + {v}, v);
        return false, queue', cur', trace';
      }
      var u := entry.child.value;
      if entry.level > 0 {
        trace' := trace + [Action(entry.edge, entry.parents, u)];
      }
      ok := true;
      queue' := Settle(q, sources, adj, u, queue', cur');
    }

    method PushSource(q: Query, ghost done: set<Vertex>, v: Vertex, queue: multiset<Item>) returns (queue': multiset<Item>)
      requires SearchInv(q, done, queue, 0.0) && v in adjacencyMap && v !in visited && Untouched(adjacencyMap[v])
      modifies this`adjacencyMap
      ensures SearchInv(q, done + {v}, queue', 0.0) && SameChildren(old(adjacencyMap), adjacencyMap)
      ensures forall w :: w in adjacencyMap && w != v ==> adjacencyMap[w] == old(adjacencyMap)[w]
    {
      ghost var adj := adjacencyMap;
      var entry := adjacencyMap[v].(distance := At(0.0), parents := {}, level := 0);
      PushKeepsQueue(adj, visited, queue, 0.0, v, entry);
      StartKeepsMap(q, done, adj, visited, v, entry.(inQueue := true, queueKey := 0.0));
      adjacencyMap := adjacencyMap[v := entry];
      queue' := Push(queue, v);
      assert adjacencyMap == adj[v := entry.(inQueue := true, queueKey := 0.0)];
    }

    lemma NothingQueued(q: Query)
      requires q.g == graph && Valid() && visited == {}
      ensures SearchInv(q, {}, multiset{}, 0.0)
    {
    }

    method PushSources(q: Query, sources: set<Vertex>) returns (queue: multiset<Item>)
      requires q.g == graph && sources <= graph.vertices && Valid() && visited == {}
      modifies this`adjacencyMap
      ensures SearchInv(q, sources, queue, 0.0) && SameChildren(old(adjacencyMap), adjacencyMap)
    {
      hide SearchInv;
      queue := multiset{};
      NothingQueued(q);
      var todo := sources;
      ghost var done: set<Vertex> := {};
      while todo != {}
        invariant todo <= sources && done + todo == sources && done !! todo && adjacencyMap.Keys == graph.vertices
        invariant SearchInv(q, done, queue, 0.0)
        invariant SameChildren(old(adjacencyMap), adjacencyMap)
        invariant forall v :: v in todo ==> v in adjacencyMap && Untouched(adjacencyMap[v])
      {
        var v :| v in todo;
        queue := PushSource(q, done, v, queue);
        todo, done := todo - {v}, done + {v};
      }
      assert done == sources;
    }

    /**
     Propagates from the start vertices. The run is cut short (ok is false) when an entry leaves the
     queue that names no vertex; Reset leaves such entries behind for everything visited before. Whatever
     the cost, it is not cut short if no edges lead from the start vertices to such an entry; if every
     edge may be taken, exactly then.
     */
    method Propagate(sources: set<Vertex>, cost: (Edge, set<Vertex>, Vertex) -> Distance, maxDistance: Distance,
                     maxEdgeCost: Distance)
      returns (ok: bool, trace: seq<Action>)
      requires Valid() && sources <= graph.vertices
      modifies this
      ensures ok ==> Valid() && Finished(Query(graph, cost, maxDistance, maxEdgeCost), sources, adjacencyMap, visited, order, trace)
      ensures SameChildren(AfterReset(old(adjacencyMap), old(visited)), adjacencyMap)
      ensures ok <==> forall v :: Reached(adjacencyMap, v) ==> adjacencyMap[v].child.Some?
      ensures old(visited) == {} && old(Intact()) ==> ok
      ensures ok ==> sources !! old(visited)
      ensures Separated(graph, sources, Emptied(old(adjacencyMap), old(visited))) ==> ok
      ensures Permissive(Query(graph, cost, maxDistance, maxEdgeCost)) ==>
                (ok <==> Separated(graph, sources, Emptied(old(adjacencyMap), old(visited))))
    {
      hide Finished, Permissive, Separated, Cut, MapInv, SameChildren, Emptied;
      Reset();
      assert adjacencyMap == AfterReset(old(adjacencyMap), old(visited));
      ok, trace := Run(Query(graph, cost, maxDistance, maxEdgeCost), sources);
      RunMeans(ok, Query(graph, cost, maxDistance, maxEdgeCost), sources, old(adjacencyMap), old(visited), adjacencyMap, visited,
               order, trace);
    }

    method Run(q: Query, sources: set<Vertex>) returns (ok: bool, trace: seq<Action>)
      requires Valid() && visited == {} && order == [] && q.g == graph && sources <= graph.vertices
      modifies this
      ensures ok ==> Valid() && Finished(q, sources, adjacencyMap, visited, order, trace)
      ensures SameChildren(old(adjacencyMap), adjacencyMap)
      ensures !ok ==> Cut(q, sources, adjacencyMap)
      ensures ok ==> forall v :: v in visited ==> adjacencyMap[v].child == Some(v)
    {
      var queue := PushSources(q, sources);
      ghost var cur := 0.0;
      trace := [];
      while queue != multiset{}
        invariant visited <= graph.vertices && SameChildren(old(adjacencyMap), adjacencyMap)
        invariant RunInv(q, sources, queue, cur, trace)
        invariant forall v :: v in visited ==> adjacencyMap[v].child == Some(v)
        decreases graph.vertices - visited
      {
        ghost var before := visited;
        ok, queue, cur, trace := SettleNext(q, sources, queue, cur, trace);
        if !ok {
          return;
        }
        FewerUnsettled(graph.vertices, before, visited);
      }
      ok := true;
      QueueEmpty(adjacencyMap, visited, cur);
    }
  }

  /** The first propagation of a propagator runs to its end; a second one from the same vertex does not. */
  method PropagateTwice(g: Graph, v: Vertex, cost: (Edge, set<Vertex>, Vertex) -> Distance, maxDistance: Distance,
                        maxEdgeCost: Distance)
    returns (first: bool, second: bool)
    requires ValidGraph(g) && v in g.vertices
    ensures first && !second
  {
    var propagator := new EstimatePropagator(g);
    var trace;
    first, trace := propagator.Propagate({v}, cost, maxDistance, maxEdgeCost);
    StartsAreVisited(Query(g, cost, maxDistance, maxEdgeCost), {v}, propagator.adjacencyMap, propagator.visited,
                     propagator.order, trace);
    second, trace := propagator.Propagate({v}, cost, maxDistance, maxEdgeCost);
  }

  // ----- When a run is cut short

  /** What is left of the map when a new propagation starts. */
  ghost function AfterReset(adj: AdjacencyMap, visited: set<Vertex>): AdjacencyMap {
    map v | v in adj :: if v in visited then ResetEntry else adj[v]
  }

  /** The vertices whose entries name no vertex when a new propagation starts. */
  ghost function Emptied(adj: AdjacencyMap, visited: set<Vertex>): set<Vertex> {
    set v | v in adj && (v in visited || adj[v].child.None?)
  }

  /** No edge leads out of c. */
  ghost predicate Closed(g: Graph, c: set<Vertex>) {
    forall u, e, z :: u in c && Linked(g, u, e, z) ==> z in c
  }

  ghost predicate Separated(g: Graph, sources: set<Vertex>, emptied: set<Vertex>) {
    exists c :: Closed(g, c) && sources <= c && c !! emptied
  }

  /** Every edge may be taken in every direction, and nothing is too far. */
  ghost predicate Permissive(q: Query) {
    q.maxDistance == Far && forall e, from, z :: Usable(q, e, from, z)
  }

  ghost predicate Stuck(adj: AdjacencyMap, v: Vertex) {
    Reached(adj, v) && adj[v].child.None?
  }

  /** The run has reached an entry that names no vertex. */
  ghost predicate Cut(q: Query, sources: set<Vertex>, adj: AdjacencyMap) {
    exists v, settled :: MapInv(q, sources, adj, settled) && Stuck(adj, v)
  }

  lemma CutHere(q: Query, sources: set<Vertex>, adj: AdjacencyMap, settled: set<Vertex>, v: Vertex)
    requires MapInv(q, sources, adj, settled) && Stuck(adj, v)
    ensures Cut(q, sources, adj)
  {
  }

  /** The search never leaves a set of vertices that no edge leads out of. */
  lemma {:induction false} ReachedInside(q: Query, sources: set<Vertex>, adj: AdjacencyMap, settled: set<Vertex>,
                                         c: set<Vertex>, v: Vertex)
    requires MapInv(q, sources, adj, settled) && Closed(q.g, c) && sources <= c && Reached(adj, v)
    ensures v in c
    decreases adj[v].level
  {
    assert Explained(q, sources, adj, settled, v);
    if v !in sources {
      var u :| SettledParent(q, adj, settled, u, v);
      StartDistance(q, sources, adj, settled, u);
      ReachedInside(q, sources, adj, settled, c, u);
    }
  }

  lemma CutIsNotSeparated(q: Query, sources: set<Vertex>, before: AdjacencyMap, visited: set<Vertex>, adj: AdjacencyMap)
    requires Cut(q, sources, adj) && SameChildren(AfterReset(before, visited), adj)
    ensures !Separated(q.g, sources, Emptied(before, visited))
    ensures exists v :: Stuck(adj, v)
  {
    var v, settled :| MapInv(q, sources, adj, settled) && Stuck(adj, v);
    assert v in Emptied(before, visited);
    forall c | Closed(q.g, c) && sources <= c ensures v in c {
      ReachedInside(q, sources, adj, settled, c, v);
    }
  }

  /** If every edge may be taken, the settled vertices are all that edges lead to. */
  lemma VisitedIsClosed(q: Query, sources: set<Vertex>, adj: AdjacencyMap, visited: set<Vertex>, order: seq<Vertex>,
                        trace: seq<Action>)
    requires Finished(q, sources, adj, visited, order, trace) && ValidGraph(q.g) && Permissive(q)
    ensures Closed(q.g, visited)
  {
    forall u, e, z | u in visited && Linked(q.g, u, e, z) ensures z in visited {
      var i :| 0 <= i < |order| && order[i] == u;
      assert Expanded(q, adj, order, i) && ExpandedOver(q, adj, order, i, e);
      var initialized :| InitializedThen(q, adj, order, i, e, initialized) && AllRelaxed(q, adj, u, e, initialized);
      assert RelaxedTo(q, adj, u, e, initialized, z);
      assert ValidVertex(q.g, u) && ValidEdge(q.g, u, e);
      assert Usable(q, e, initialized - {z}, z);
      assert Reached(adj, z);
    }
  }

  lemma VisitedIsSeparated(q: Query, sources: set<Vertex>, before: AdjacencyMap, visited0: set<Vertex>, adj: AdjacencyMap,
                           visited: set<Vertex>, order: seq<Vertex>, trace: seq<Action>)
    requires Finished(q, sources, adj, visited, order, trace) && ValidGraph(q.g) && Permissive(q)
    requires SameChildren(AfterReset(before, visited0), adj) && forall v :: v in visited ==> adj[v].child.Some?
    ensures Separated(q.g, sources, Emptied(before, visited0))
  {
    StartsAreVisited(q, sources, adj, visited, order, trace);
    VisitedIsClosed(q, sources, adj, visited, order, trace);
    forall v | v in visited ensures v !in Emptied(before, visited0) {
      assert AfterReset(before, visited0)[v].child == adj[v].child;
    }
    assert visited !! Emptied(before, visited0);
  }

  /** What a run says about the map it started from; before and visited0 are from before the reset. */
  lemma RunMeans(ok: bool, q: Query, sources: set<Vertex>, before: AdjacencyMap, visited0: set<Vertex>, adj: AdjacencyMap,
                 visited: set<Vertex>, order: seq<Vertex>, trace: seq<Action>)
    requires ValidGraph(q.g) && sources <= before.Keys && SameChildren(AfterReset(before, visited0), adj)
    requires ok ==> Finished(q, sources, adj, visited, order, trace) && forall v :: v in visited ==> adj[v].child == Some(v)
    requires !ok ==> Cut(q, sources, adj)
    ensures ok <==> forall v :: Reached(adj, v) ==> adj[v].child.Some?
    ensures visited0 == {} && (forall v :: v in before ==> before[v].child == Some(v)) ==> ok
    ensures ok ==> sources !! visited0
    ensures Separated(q.g, sources, Emptied(before, visited0)) ==> ok
    ensures Permissive(q) ==> (ok <==> Separated(q.g, sources, Emptied(before, visited0)))
  {
    if ok {
      StartsAreVisited(q, sources, adj, visited, order, trace);
      if Permissive(q) {
        VisitedIsSeparated(q, sources, before, visited0, adj, visited, order, trace);
      }
    } else {
      CutIsNotSeparated(q, sources, before, visited0, adj);
    }
  }

  ghost predicate Finished(q: Query, sources: set<Vertex>, adj: AdjacencyMap, visited: set<Vertex>,
                           order: seq<Vertex>, trace: seq<Action>) {
    && MapInv(q, sources, adj, visited)
    && OrderInv(q, adj, visited, order)
    && trace == ActionsOf(adj, order)
    && forall v :: Reached(adj, v) <==> v in visited
  }

  lemma StartsAreVisited(q: Query, sources: set<Vertex>, adj: AdjacencyMap, visited: set<Vertex>, order: seq<Vertex>,
                         trace: seq<Action>)
    requires Finished(q, sources, adj, visited, order, trace)
    ensures sources <= visited
  {
    forall v | v in sources ensures v in visited {
      assert Reached(adj, v);
    }
  }

  lemma QueueEmpty(adj: AdjacencyMap, visited: set<Vertex>, cur: real)
    requires QueueInv(adj, visited, multiset{}, cur)
    ensures forall v :: Reached(adj, v) <==> v in visited
  {
    forall v ensures Reached(adj, v) <==> v in visited {
      if Reached(adj, v) {
        assert QueuedOk(adj, visited, multiset{}, v);
      }
      if v in visited {
        assert SettledBelow(adj, v, cur);
      }
    }
  }

  lemma StartKeepsMap(q: Query, sources: set<Vertex>, adj: AdjacencyMap, visited: set<Vertex>, z: Vertex, entry: Entry)
    requires MapInv(q, sources, adj, visited) && z in adj && Untouched(adj[z]) && z !in visited
    requires entry == adj[z].(distance := At(0.0), parents := {}, level := 0, inQueue := entry.inQueue, queueKey := entry.queueKey)
    ensures MapInv(q, sources + {z}, adj[z := entry], visited)
  {
    var adj' := adj[z := entry];
    forall v | Reached(adj', v) ensures Explained(q, sources + {z}, adj', visited, v) {
      if v != z {
        assert Explained(q, sources, adj, visited, v);
        ExplainedStays(q, sources, adj, visited, z, entry, v);
      }
    }
  }

  ghost predicate SameChildren(adj: AdjacencyMap, adj': AdjacencyMap) {
    adj.Keys == adj'.Keys && forall v :: v in adj ==> adj'[v].child == adj[v].child
  }

  lemma PopKeeps(q: Query, sources: set<Vertex>, adj: AdjacencyMap, visited: set<Vertex>, queue: multiset<Item>,
                 cur: real, top: Item)
    requires MapInv(q, sources, adj, visited) && QueueInv(adj, visited, queue, cur)
    requires top in queue && forall it :: it in queue ==> top.key <= it.key
    ensures Reached(adj, top.v) && adj[top.v].distance.d == top.key && top.v !in visited && cur <= top.key
    ensures MapInv(q, sources, adj[top.v := adj[top.v].(inQueue := false)], visited + {top.v})
    ensures QueueInv(adj[top.v := adj[top.v].(inQueue := false)], visited + {top.v}, queue - multiset{top}, top.key)
    ensures Lower(adj, adj[top.v := adj[top.v].(inQueue := false)], visited)
  {
    assert ItemOk(adj, visited, queue, top, cur);
    var adj' := adj[top.v := adj[top.v].(inQueue := false)];
    PopKeepsMap(q, sources, adj, visited, top.v);
    PopKeepsQueue(adj, visited, queue, cur, top);
  }

  lemma PopKeepsMap(q: Query, sources: set<Vertex>, adj: AdjacencyMap, visited: set<Vertex>, u: Vertex)
    requires MapInv(q, sources, adj, visited) && Reached(adj, u)
    ensures MapInv(q, sources, adj[u := adj[u].(inQueue := false)], visited + {u})
  {
    var adj' := adj[u := adj[u].(inQueue := false)];
    forall v | Reached(adj', v) ensures Explained(q, sources, adj', visited + {u}, v) {
      assert Explained(q, sources, adj, visited, v);
      if v !in sources {
        var p :| SettledParent(q, adj, visited, p, v);
        assert SettledParent(q, adj', visited + {u}, p, v);
      }
    }
  }

  lemma PopKeepsQueue(adj: AdjacencyMap, visited: set<Vertex>, queue: multiset<Item>, cur: real, top: Item)
    requires QueueInv(adj, visited, queue, cur) && top in queue && forall it :: it in queue ==> top.key <= it.key
    requires ItemOk(adj, visited, queue, top, cur)
    ensures QueueInv(adj[top.v := adj[top.v].(inQueue := false)], visited + {top.v}, queue - multiset{top}, top.key)
  {
    var adj', visited', queue' := adj[top.v := adj[top.v].(inQueue := false)], visited + {top.v}, queue - multiset{top};
    forall it | it in queue' ensures ItemOk(adj', visited', queue', it, top.key) {
      assert ItemOk(adj, visited, queue, it, cur);
    }
    forall v | v in adj' ensures QueuedOk(adj', visited', queue', v) {
      assert QueuedOk(adj, visited, queue, v);
    }
    forall v | v in visited' ensures SettledBelow(adj', v, top.key) {
      if v != top.v {
        assert SettledBelow(adj, v, cur);
      }
    }
  }

  lemma SortedStays(adj: AdjacencyMap, adj': AdjacencyMap, visited: set<Vertex>, order: seq<Vertex>, u: Vertex, cur: real)
    requires SortedByDistance(adj, order) && Lower(adj, adj', visited) && (forall v :: v in order ==> v in visited)
    requires forall v :: v in visited ==> SettledBelow(adj, v, cur)
    requires Reached(adj', u) && adj'[u].distance.d == cur
    ensures SortedByDistance(adj', order + [u])
  {
    var order' := order + [u];
    forall i, j | 0 <= i < j < |order'| ensures NotAfter(adj', order'[i], order'[j]) {
      assert order[i] in visited && SettledBelow(adj, order[i], cur);
      if j < |order| {
        assert NotAfter(adj, order[i], order[j]);
        assert order[j] in visited;
      }
    }
  }

  lemma ActionsGrow(adj: AdjacencyMap, adj': AdjacencyMap, visited: set<Vertex>, order: seq<Vertex>, u: Vertex)
    requires Lower(adj, adj', visited) && (forall v :: v in order ==> v in visited) && u in adj'
    ensures ActionsOf(adj', order + [u])
         == ActionsOf(adj, order) + if adj'[u].level > 0 then [Action(adj'[u].edge, adj'[u].parents, u)] else []
  {
    ActionsStay(adj, adj', visited, order);
    assert (order + [u])[..|order|] == order;
  }

  /** The entry of u leaves the queue (adj to popped), then u is expanded (popped to adj'). */
  lemma SettleKeeps(q: Query, adj: AdjacencyMap, popped: AdjacencyMap, adj': AdjacencyMap, visited: set<Vertex>,
                    order: seq<Vertex>,
                    u: Vertex, cur: real)
    requires OrderInv(q, adj, visited, order) && u !in visited && Reached(adj, u)
    requires popped == adj[u := adj[u].(inQueue := false)] && Lower(adj, popped, visited) && Lower(popped, adj', visited + {u})
    requires adj[u].distance.d == cur && forall v :: v in visited ==> SettledBelow(popped, v, cur)
    requires Expanded(q, adj', order + [u], |order|)
    ensures OrderInv(q, adj', visited + {u}, order + [u])
    ensures ActionsOf(adj', order + [u])
         == ActionsOf(adj, order) + if adj[u].level > 0 then [Action(adj[u].edge, adj[u].parents, u)] else []
    ensures SameChildren(adj, adj')
  {
    assert Lower(popped, adj', visited);
    LowerTransitive(adj, popped, adj', visited);
    forall v | v in visited ensures SettledBelow(adj, v, cur) {
      assert SettledBelow(popped, v, cur);
    }
    SortedStays(adj, adj', visited, order, u, cur);
    ActionsGrow(adj, adj', visited, order, u);
    forall i | 0 <= i < |order + [u]| ensures Expanded(q, adj', order + [u], i) {
      if i < |order| {
        ExpandedStays(q, adj, adj', visited, order, [u], i);
      }
    }
  }

  lemma AllEdgesExpanded(q: Query, adj: AdjacencyMap, order: seq<Vertex>, u: Vertex, done: set<Edge>)
    requires EdgesExpanded(q, adj, order, done) && order[|order| - 1] == u
    requires u in q.g.incident && q.g.incident[u] <= done
    ensures Expanded(q, adj, order, |order| - 1)
  {
    var i := |order| - 1;
    assert Expanded(q, adj, order, i);
  }

  ghost predicate EdgesExpanded(q: Query, adj: AdjacencyMap, order: seq<Vertex>, es: set<Edge>) {
    order != [] && forall e :: e in es ==> ExpandedOver(q, adj, order, |order| - 1, e)
  }

  lemma KeepEdges(q: Query, first: AdjacencyMap, adj: AdjacencyMap, adj': AdjacencyMap, visited: set<Vertex>,
                  order: seq<Vertex>, es: set<Edge>, e: Edge)
    requires Lower(first, adj, visited) && Lower(adj, adj', visited)
    requires EdgesExpanded(q, adj, order, es) && order[|order| - 1] in visited
    requires ExpandedOver(q, adj', order, |order| - 1, e)
    ensures Lower(first, adj', visited) && EdgesExpanded(q, adj', order, es + {e})
  {
    LowerTransitive(first, adj, adj', visited);
    forall e' | e' in es ensures ExpandedOver(q, adj', order, |order| - 1, e') {
      ExpandedOverStays(q, adj, adj', visited, order, [], |order| - 1, e');
      assert order + [] == order;
    }
  }

  lemma SlotsAreVertices(g: Graph, u: Vertex, e: Edge)
    requires ValidEdge(g, u, e) && u in g.incident && e in g.incident[u]
    ensures forall k :: 0 <= k < |g.ends[e]| && g.ends[e][k].Some? ==>
              g.ends[e][k].value in g.vertices && Linked(g, u, e, g.ends[e][k].value)
  {
    forall k | 0 <= k < |g.ends[e]| && g.ends[e][k].Some?
      ensures g.ends[e][k].value in g.vertices && Linked(g, u, e, g.ends[e][k].value)
    {
      assert g.ends[e][k] in g.ends[e];
    }
  }

  ghost predicate RelaxedUpTo(q: Query, adj: AdjacencyMap, u: Vertex, e: Edge, initialized: set<Vertex>,
                              zs: seq<Option<Vertex>>, n: int)
    requires n <= |zs|
  {
    Reached(adj, u) && forall k :: 0 <= k < n && zs[k].Some? ==> RelaxedTo(q, adj, u, e, initialized, zs[k].value)
  }

  lemma NoTurnYet(q: Query, adj: AdjacencyMap, u: Vertex, e: Edge, initialized: set<Vertex>, level: int)
    requires Reached(adj, u)
    ensures EdgeRelaxed(q, adj, adj, u, e, initialized, level, [])
  {
  }

  lemma OneMoreTurn(q: Query, first: AdjacencyMap, adj: AdjacencyMap, adj': AdjacencyMap, u: Vertex, e: Edge,
                    initialized: set<Vertex>, level: int, zs: seq<Option<Vertex>>, n: int)
    requires 0 <= n < |zs| && EdgeRelaxed(q, first, adj, u, e, initialized, level, zs[..n]) && Reached(adj, u)
    requires adj[u] == first[u] && (zs[n].Some? ==> zs[n].value in adj)
    requires adj' == if zs[n].None? then adj else adj[zs[n].value := AfterTurn(q, adj, u, e, initialized, level, zs[n].value)]
    ensures EdgeRelaxed(q, first, adj', u, e, initialized, level, zs[..n + 1])
  {
    assert zs[..n + 1] == zs[..n] + [zs[n]];
  }

  lemma KeepRelaxed(q: Query, first: AdjacencyMap, adj: AdjacencyMap, adj': AdjacencyMap, visited: set<Vertex>,
                    u: Vertex, e: Edge, initialized: set<Vertex>, zs: seq<Option<Vertex>>, n: int)
    requires Lower(first, adj, visited) && Lower(adj, adj', visited) && u in visited && 0 <= n < |zs|
    requires RelaxedUpTo(q, adj, u, e, initialized, zs, n)
    requires Reached(adj', u) && (zs[n].Some? ==> RelaxedTo(q, adj', u, e, initialized, zs[n].value))
    ensures Lower(first, adj', visited)
    ensures RelaxedUpTo(q, adj', u, e, initialized, zs, n + 1)
  {
    LowerTransitive(first, adj, adj', visited);
    forall k | 0 <= k < n && zs[k].Some? ensures RelaxedTo(q, adj', u, e, initialized, zs[k].value) {
      RelaxedStays(q, adj, adj', visited, u, e, initialized, zs[k].value);
    }
  }

  lemma EdgeDone(q: Query, first: AdjacencyMap, adj: AdjacencyMap, visited: set<Vertex>, order: seq<Vertex>,
                 u: Vertex, e: Edge, initialized: set<Vertex>)
    requires e in q.g.ends && initialized == InitializedSet(q.g, first, e)
    requires Lower(first, adj, visited) && order != [] && order[|order| - 1] == u
    requires forall v :: v in order ==> v in visited && Reached(first, v)
    requires RelaxedUpTo(q, adj, u, e, initialized, q.g.ends[e], |q.g.ends[e]|)
    ensures ExpandedOver(q, adj, order, |order| - 1, e)
  {
    forall z | z in initialized ensures OnEdge(q.g, e, z) && Reached(adj, z) {
      ReachedStays(first, adj, visited, z);
    }
    forall z | OnEdge(q.g, e, z) ensures RelaxedTo(q, adj, u, e, initialized, z) {
      var k :| 0 <= k < |q.g.ends[e]| && q.g.ends[e][k] == Some(z);
      assert RelaxedTo(q, adj, u, e, initialized, q.g.ends[e][k].value);
    }
    assert AllRelaxed(q, adj, u, e, initialized);
    var i := |order| - 1;
    forall k | 0 <= k <= i && OnEdge(q.g, e, order[k]) ensures order[k] in initialized {
      assert Reached(first, order[k]);
    }
    assert InitializedThen(q, adj, order, i, e, initialized);
  }

  ghost function InitializedSet(g: Graph, adj: AdjacencyMap, e: Edge): set<Vertex>
    requires e in g.ends
  {
    set z | z in adj && Some(z) in g.ends[e] && adj[z].distance.At?
  }

  lemma NotSettled(adj: AdjacencyMap, visited: set<Vertex>, cur: real, z: Vertex, x: real)
    requires z in adj && cur <= x && Below(x, adj[z].distance)
    requires forall v :: v in visited ==> SettledBelow(adj, v, cur)
    ensures z !in visited
  {
    assert z in visited ==> SettledBelow(adj, z, cur);
  }

  lemma StartDistance(q: Query, sources: set<Vertex>, adj: AdjacencyMap, visited: set<Vertex>, u: Vertex)
    requires MapInv(q, sources, adj, visited) && Reached(adj, u)
    ensures adj[u].distance.d >= 0.0 && adj[u].level >= 0
  {
    assert Explained(q, sources, adj, visited, u);
  }

  // ----- The settled vertices in order, and what happened at each

  ghost predicate SortedByDistance(adj: AdjacencyMap, order: seq<Vertex>) {
    forall i, j :: 0 <= i < j < |order| ==> NotAfter(adj, order[i], order[j])
  }

  ghost predicate NotAfter(adj: AdjacencyMap, a: Vertex, b: Vertex) {
    Reached(adj, a) && Reached(adj, b) && adj[a].distance.d <= adj[b].distance.d
  }

  ghost predicate AllRelaxed(q: Query, adj: AdjacencyMap, u: Vertex, e: Edge, initialized: set<Vertex>) {
    Reached(adj, u) && forall z :: OnEdge(q.g, e, z) ==> RelaxedTo(q, adj, u, e, initialized, z)
  }

  ghost predicate OnEdge(g: Graph, e: Edge, z: Vertex) {
    e in g.ends && Some(z) in g.ends[e]
  }

  /** What was initialised on e when order[i] was settled: at least everything settled so far. */
  ghost predicate InitializedThen(q: Query, adj: AdjacencyMap, order: seq<Vertex>, i: int, e: Edge, initialized: set<Vertex>)
    requires 0 <= i < |order|
  {
    && (forall z :: z in initialized ==> OnEdge(q.g, e, z) && Reached(adj, z))
    && (forall k :: 0 <= k <= i && OnEdge(q.g, e, order[k]) ==> order[k] in initialized)
  }

  ghost predicate ExpandedOver(q: Query, adj: AdjacencyMap, order: seq<Vertex>, i: int, e: Edge)
    requires 0 <= i < |order|
  {
    exists initialized :: InitializedThen(q, adj, order, i, e, initialized) && AllRelaxed(q, adj, order[i], e, initialized)
  }

  ghost predicate Expanded(q: Query, adj: AdjacencyMap, order: seq<Vertex>, i: int)
    requires 0 <= i < |order|
  {
    order[i] in q.g.incident && forall e :: e in q.g.incident[order[i]] ==> ExpandedOver(q, adj, order, i, e)
  }

  /** One call of the action. */
  datatype Action = Action(edge: Option<Edge>, from: set<Vertex>, to: Vertex)

  /** The actions for the settled vertices: one for each that is not a start. */
  ghost function ActionsOf(adj: AdjacencyMap, order: seq<Vertex>): seq<Action> {
    if order == [] then []
    else
      var v := order[|order| - 1];
      ActionsOf(adj, order[..|order| - 1])
      + if v in adj && adj[v].level > 0 then [Action(adj[v].edge, adj[v].parents, v)] else []
  }

  ghost predicate OrderInv(q: Query, adj: AdjacencyMap, visited: set<Vertex>, order: seq<Vertex>) {
    && (forall v :: v in order <==> v in visited)
    && Distinct(order)
    && SortedByDistance(adj, order)
    && forall i :: 0 <= i < |order| ==> Expanded(q, adj, order, i)
  }

  lemma AllRelaxedStays(q: Query, adj: AdjacencyMap, adj': AdjacencyMap, visited: set<Vertex>, u: Vertex, e: Edge,
                        initialized: set<Vertex>)
    requires AllRelaxed(q, adj, u, e, initialized) && u in visited && Lower(adj, adj', visited)
    ensures AllRelaxed(q, adj', u, e, initialized)
  {
    forall z | OnEdge(q.g, e, z) ensures Reached(adj', u) && RelaxedTo(q, adj', u, e, initialized, z) {
      RelaxedStays(q, adj, adj', visited, u, e, initialized, z);
    }
  }

  lemma ReachedStays(adj: AdjacencyMap, adj': AdjacencyMap, visited: set<Vertex>, z: Vertex)
    requires Reached(adj, z) && Lower(adj, adj', visited)
    ensures Reached(adj', z)
  {
    assert NotAbove(adj'[z].distance, adj[z].distance);
  }

  lemma ExpandedOverStays(q: Query, adj: AdjacencyMap, adj': AdjacencyMap, visited: set<Vertex>, order: seq<Vertex>,
                          more: seq<Vertex>, i: int, e: Edge)
    requires 0 <= i < |order| && ExpandedOver(q, adj, order, i, e) && order[i] in visited && Lower(adj, adj', visited)
    ensures ExpandedOver(q, adj', order + more, i, e)
  {
    var initialized :| InitializedThen(q, adj, order, i, e, initialized) && AllRelaxed(q, adj, order[i], e, initialized);
    AllRelaxedStays(q, adj, adj', visited, order[i], e, initialized);
    forall z | z in initialized ensures OnEdge(q.g, e, z) && Reached(adj', z) {
      ReachedStays(adj, adj', visited, z);
    }
    assert InitializedThen(q, adj', order + more, i, e, initialized);
  }

  lemma ExpandedStays(q: Query, adj: AdjacencyMap, adj': AdjacencyMap, visited: set<Vertex>, order: seq<Vertex>,
                      more: seq<Vertex>, i: int)
    requires 0 <= i < |order| && Expanded(q, adj, order, i) && order[i] in visited && Lower(adj, adj', visited)
    ensures Expanded(q, adj', order + more, i)
  {
    forall e | e in q.g.incident[order[i]] ensures ExpandedOver(q, adj', order + more, i, e) {
      ExpandedOverStays(q, adj, adj', visited, order, more, i, e);
    }
  }

  lemma {:induction false} ActionsStay(adj: AdjacencyMap, adj': AdjacencyMap, visited: set<Vertex>, order: seq<Vertex>)
    requires Lower(adj, adj', visited) && forall v :: v in order ==> v in visited
    ensures ActionsOf(adj', order) == ActionsOf(adj, order)
  {
    if order != [] {
      var front, v := order[..|order| - 1], order[|order| - 1];
      assert order == front + [v];
      ActionsStay(adj, adj', visited, front);
    }
  }

  // ----- What the run means for the actions

  /** The action for v is applied with a from-set that holds an earlier, strictly nearer vertex, and not v itself. */
  ghost predicate ActionOk(adj: AdjacencyMap, order: seq<Vertex>, act: Action) {
    && act.to in order && Reached(adj, act.to) && act.to !in act.from
    && (forall p :: p in act.from ==> Reached(adj, p))
    && exists u :: u in act.from && SettledBefore(adj, order, u, act.to)
  }

  ghost predicate SettledBefore(adj: AdjacencyMap, order: seq<Vertex>, u: Vertex, v: Vertex) {
    && Reached(adj, u) && Reached(adj, v) && adj[u].distance.d < adj[v].distance.d
    && exists i, j :: 0 <= i < j < |order| && order[i] == u && order[j] == v
  }

  ghost predicate ActedOn(trace: seq<Action>, v: Vertex) {
    exists k :: 0 <= k < |trace| && trace[k].to == v
  }

  lemma NearerIsEarlier(adj: AdjacencyMap, order: seq<Vertex>, u: Vertex, v: Vertex)
    requires SortedByDistance(adj, order) && u in order && v in order
    requires Reached(adj, u) && Reached(adj, v) && adj[u].distance.d < adj[v].distance.d
    ensures SettledBefore(adj, order, u, v)
  {
    var i :| 0 <= i < |order| && order[i] == u;
    var j :| 0 <= j < |order| && order[j] == v;
  }

  /** Exactly the settled vertices with a level above 0 are acted on, each once. */
  lemma {:induction false} ActionsCover(adj: AdjacencyMap, order: seq<Vertex>)
    requires Distinct(order) && forall v :: v in order ==> v in adj
    ensures forall v :: ActedOn(ActionsOf(adj, order), v) <==> v in order && v in adj && adj[v].level > 0
    ensures forall i, j :: 0 <= i < j < |ActionsOf(adj, order)| ==> ActionsOf(adj, order)[i].to != ActionsOf(adj, order)[j].to
    ensures forall k :: 0 <= k < |ActionsOf(adj, order)| ==> OwnAction(adj, ActionsOf(adj, order)[k])
  {
    if order != [] {
      var front, v := order[..|order| - 1], order[|order| - 1];
      assert order == front + [v];
      ActionsCover(adj, front);
      var acts := ActionsOf(adj, front);
      if adj[v].level > 0 {
        var act := Action(adj[v].edge, adj[v].parents, v);
        AppendAction(adj, front, v, acts);
        assert OwnAction(adj, act);
        assert ActionsOf(adj, order) == acts + [act];
      } else {
        assert ActionsOf(adj, order) == acts + [] == acts;
      }
    }
  }

  ghost predicate OwnAction(adj: AdjacencyMap, act: Action) {
    act.to in adj && act == Action(adj[act.to].edge, adj[act.to].parents, act.to)
  }

  lemma AppendAction(adj: AdjacencyMap, front: seq<Vertex>, v: Vertex, acts: seq<Action>)
    requires v in adj && v !in front
    requires forall w :: ActedOn(acts, w) <==> w in front && w in adj && adj[w].level > 0
    requires forall i, j :: 0 <= i < j < |acts| ==> acts[i].to != acts[j].to
    ensures var acts' := acts + [Action(adj[v].edge, adj[v].parents, v)];
            && (forall w :: ActedOn(acts', w) <==> ActedOn(acts, w) || w == v)
            && forall i, j :: 0 <= i < j < |acts'| ==> acts'[i].to != acts'[j].to
  {
    var acts' := acts + [Action(adj[v].edge, adj[v].parents, v)];
    forall w ensures ActedOn(acts', w) <==> ActedOn(acts, w) || w == v {
      if ActedOn(acts, w) {
        var k :| 0 <= k < |acts| && acts[k].to == w;
        assert acts'[k].to == w;
      }
      assert acts'[|acts|].to == v;
      if ActedOn(acts', w) && w != v {
        var k :| 0 <= k < |acts'| && acts'[k].to == w;
        assert acts[k].to == w;
      }
    }
    forall i | 0 <= i < |acts| ensures acts[i].to != v {
      assert ActedOn(acts, acts[i].to);
    }
  }

  /**
   The action runs exactly once on each reached vertex that is not a start, never on a start, and
   always with a from-set that contains an earlier settled, strictly nearer vertex.
   */
  lemma ActionsOfFinishedRun(q: Query, sources: set<Vertex>, adj: AdjacencyMap, visited: set<Vertex>,
                             order: seq<Vertex>, trace: seq<Action>)
    requires Finished(q, sources, adj, visited, order, trace)
    ensures forall v :: ActedOn(trace, v) <==> Reached(adj, v) && v !in sources
    ensures forall i, j :: 0 <= i < j < |trace| ==> trace[i].to != trace[j].to
    ensures forall k :: 0 <= k < |trace| ==> ActionOk(adj, order, trace[k])
  {
    ActionsCover(adj, order);
    forall v ensures ActedOn(trace, v) <==> Reached(adj, v) && v !in sources {
      if v in adj {
        var explained := Reached(adj, v) ==> Explained(q, sources, adj, visited, v);
      }
    }
    forall k | 0 <= k < |trace| ensures ActionOk(adj, order, trace[k]) {
      assert ActedOn(trace, trace[k].to);
      assert OwnAction(adj, trace[k]);
      ActionHasEarlierParent(q, sources, adj, visited, order, trace[k]);
    }
  }

  lemma ActionHasEarlierParent(q: Query, sources: set<Vertex>, adj: AdjacencyMap, visited: set<Vertex>,
                               order: seq<Vertex>, act: Action)
    requires MapInv(q, sources, adj, visited) && OrderInv(q, adj, visited, order)
    requires OwnAction(adj, act) && act.to in order && Reached(adj, act.to) && act.to !in sources
    ensures ActionOk(adj, order, act)
  {
    assert Explained(q, sources, adj, visited, act.to);
    var u :| SettledParent(q, adj, visited, u, act.to);
    NearerIsEarlier(adj, order, u, act.to);
  }
}
