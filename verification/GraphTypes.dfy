/** What both graph searches share: identities of vertices and edges, and distances that may be infinite. */
module GraphTypes {

  /** Vertices and edges are compared by identity. */
  datatype Vertex = Vertex(id: int)
  datatype Edge = Edge(id: int)

  /** A distance or a cost; Far stands for the largest double, which means "not reachable". */
  datatype Distance = Far | At(d: real)

  predicate Below(x: real, y: Distance): (r: bool)
    ensures y.Far? ==> r
    ensures y.At? ==> (r <==> x < y.d)
  {
    y.Far? || x < y.d
  }

  /** A heap entry for a vertex, with the distance it was pushed with. */
  datatype Item = Item(key: real, v: Vertex)

  /** An entry with the least key. */
  method Top(frontier: multiset<Item>) returns (top: Item)
    requires frontier != multiset{}
    ensures top in frontier && forall it :: it in frontier ==> top.key <= it.key
  {
    top :| top in frontier;
    var rest := frontier - multiset{top};
    while rest != multiset{}
      invariant rest <= frontier && top in frontier
      invariant forall it :: it in frontier && it !in rest ==> top.key <= it.key
      decreases |rest|
    {
      var it :| it in rest;
      if it.key < top.key {
        top := it;
      }
      rest := rest - multiset{it};
    }
  }

  ghost predicate Distinct(order: seq<Vertex>) {
    forall i, j :: 0 <= i < j < |order| ==> order[i] != order[j]
  }

  ghost predicate NotAbove(a: Distance, b: Distance) {
    b.Far? || (a.At? && a.d <= b.d)
  }

  lemma FewerUnsettled(vertices: set<Vertex>, a: set<Vertex>, b: set<Vertex>)
    requires a <= b <= vertices
    ensures a == b || vertices - b < vertices - a
  {
    if a != b {
      var v :| v in b && v !in a;
      assert v in vertices - a && v !in vertices - b;
    }
  }
}
