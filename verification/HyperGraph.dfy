/** The bookkeeping of a hyper-graph: edges list their vertices and vertices their edges. */
module HyperGraph {

  class Vertex {
    var id: int
    var edges: set<Edge>

    constructor (id: int)
      ensures this.id == id && edges == {}
    {
      this.id := id;
      edges := {};
    }
  }

  class Edge {
    var vertices: seq<Vertex?>

    constructor (vertices: seq<Vertex?>)
      ensures this.vertices == vertices
    {
      this.vertices := vertices;
    }
  }

  /** No vertex is listed twice; undefined positions do not count. */
  ghost predicate Distinct(s: seq<Vertex?>) {
    forall i, j :: 0 <= i < j < |s| && s[i] != null ==> s[i] != s[j]
  }

  /** v is listed at a position other than pos. */
  ghost predicate Elsewhere(s: seq<Vertex?>, v: Vertex?, pos: nat) {
    exists i :: 0 <= i < |s| && i != pos && s[i] == v
  }

  ghost function Replace(s: seq<Vertex?>, u: Vertex, v: Vertex?): seq<Vertex?> {
    ReplaceBelow(s, u, v, |s|)
  }

  /** s with v for u below position n. */
  ghost function ReplaceBelow(s: seq<Vertex?>, u: Vertex, v: Vertex?, n: nat): (r: seq<Vertex?>)
    ensures |r| == |s| && forall i :: 0 <= i < |s| ==> r[i] == if i < n && s[i] == u then v else s[i]
  {
    seq<Vertex?>(|s|, i requires 0 <= i < |s| => if i < n && s[i] == u then v else s[i])
  }

  lemma AfterUpdate(s: seq<Vertex?>, pos: nat, v: Vertex?, u: Vertex)
    requires pos < |s|
    ensures u in s[pos := v] <==> u == v || Elsewhere(s, u, pos)
    ensures u in s <==> u == s[pos] || Elsewhere(s, u, pos)
  {
    var t := s[pos := v];
    if u in t {
      var i :| 0 <= i < |t| && t[i] == u;
      assert i == pos || s[i] == u;
    }
    if Elsewhere(s, u, pos) {
      var i :| 0 <= i < |s| && i != pos && s[i] == u;
      assert t[i] == u;
    }
    if u == v {
      assert t[pos] == u;
    }
  }

  lemma DistinctAfterUpdate(s: seq<Vertex?>, pos: nat, v: Vertex?)
    requires pos < |s| && Distinct(s)
    ensures s[pos] == null || !Elsewhere(s, s[pos], pos)
    ensures Distinct(s[pos := v]) <==> v == null || !Elsewhere(s, v, pos)
  {
    var t := s[pos := v];
    if v != null && Elsewhere(s, v, pos) {
      var i :| 0 <= i < |s| && i != pos && s[i] == v;
      assert t[i] == t[pos] == v;
    }
  }

  // ----- Incidence

  /** Each edge's list of vertices and each vertex's set of edges. */
  datatype Incidence = Incidence(lists: map<Edge, seq<Vertex?>>, sets: map<Vertex, set<Edge>>)

  /** An edge is in a vertex's set exactly if the vertex is in the edge's list. */
  ghost predicate Linked(g: Incidence) {
    && (forall e, v :: e in g.lists && v in g.sets ==> (e in g.sets[v] <==> v in g.lists[e]))
    && (forall e, v :: v in g.sets && e in g.sets[v] ==> e in g.lists)
    && (forall e, v: Vertex :: e in g.lists && v in g.lists[e] ==> v in g.sets)
  }

  ghost predicate AllDistinct(g: Incidence) {
    forall e :: e in g.lists ==> Distinct(g.lists[e])
  }

  /** Edge e leaves the set of one vertex and enters that of another; either may be undefined. */
  ghost function Moved(sets: map<Vertex, set<Edge>>, e: Edge, from: Vertex?, to: Vertex?): map<Vertex, set<Edge>> {
    map v | v in sets :: if v == to then sets[v] + {e} else if v == from then sets[v] - {e} else sets[v]
  }

  ghost function WithVertex(g: Incidence, e: Edge, pos: nat, v: Vertex?): Incidence
    requires e in g.lists && pos < |g.lists[e]|
  {
    Incidence(g.lists[e := g.lists[e][pos := v]], Moved(g.sets, e, g.lists[e][pos], v))
  }

  /** The links survive exactly if the vertex that was at the position is not at another one as well. */
  lemma LinkedAfterUpdate(g: Incidence, e: Edge, pos: nat, v: Vertex?)
    requires Linked(g) && e in g.lists && pos < |g.lists[e]| && (v != null ==> v in g.sets)
    ensures Linked(WithVertex(g, e, pos, v)) <==>
            g.lists[e][pos] == null || g.lists[e][pos] == v || !Elsewhere(g.lists[e], g.lists[e][pos], pos)
  {
    var h := WithVertex(g, e, pos, v);
    forall u: Vertex
      ensures u in h.lists[e] <==> u == v || Elsewhere(g.lists[e], u, pos)
      ensures u in g.lists[e] <==> u == g.lists[e][pos] || Elsewhere(g.lists[e], u, pos)
    {
      AfterUpdate(g.lists[e], pos, v, u);
    }
    var from := g.lists[e][pos];
    if from != null && from != v && Elsewhere(g.lists[e], from, pos) {
      assert from in h.lists[e] && e !in h.sets[from];
    } else {
      hide Elsewhere;
      assert forall d, w :: d in h.lists && w in h.sets ==> (d in h.sets[w] <==> w in h.lists[d]);
      assert forall d, w: Vertex :: d in h.lists && w in h.lists[d] ==> w in h.sets;
    }
  }

  lemma DistinctAfter(g: Incidence, e: Edge, pos: nat, v: Vertex?)
    requires AllDistinct(g) && e in g.lists && pos < |g.lists[e]|
    ensures g.lists[e][pos] == null || !Elsewhere(g.lists[e], g.lists[e][pos], pos)
    ensures AllDistinct(WithVertex(g, e, pos, v)) <==> v == null || !Elsewhere(g.lists[e], v, pos)
  {
    hide Elsewhere, Distinct;
    var h := WithVertex(g, e, pos, v);
    DistinctAfterUpdate(g.lists[e], pos, v);
    assert h.lists[e] == g.lists[e][pos := v];
  }

  /** The edges in done list v where they listed u. */
  ghost function Retargeted(g: Incidence, u: Vertex, v: Vertex?, done: set<Edge>): Incidence {
    Incidence(map e | e in g.lists :: if e in done then Replace(g.lists[e], u, v) else g.lists[e],
              map w | w in g.sets :: if w == v then g.sets[w] + done else if w == u then g.sets[w] - done else g.sets[w])
  }

  lemma InReplaced(s: seq<Vertex?>, u: Vertex, v: Vertex?, w: Vertex)
    ensures w in Replace(s, u, v) <==> if w == v then v in s || u in s else w != u && w in s
  {
    var t := Replace(s, u, v);
    if i :| 0 <= i < |t| && t[i] == w {
      assert s[i] == w || s[i] == u;
    }
    if i :| 0 <= i < |s| && s[i] == w {
      assert t[i] == if w == u then v else w;
    }
    if i :| 0 <= i < |s| && s[i] == u {
      assert t[i] == v;
    }
  }

  /** Retargeting all edges of a vertex keeps the links, whatever the vertices have in common. */
  lemma LinkedAfterRetargeting(g: Incidence, u: Vertex, v: Vertex?)
    requires Linked(g) && u in g.sets && (v != null ==> v in g.sets)
    ensures Linked(Retargeted(g, u, v, g.sets[u]))
  {
    hide Replace;
    var h := Retargeted(g, u, v, g.sets[u]);
    forall e, w | e in h.lists && w in h.sets ensures e in h.sets[w] <==> w in h.lists[e] {
      InReplaced(g.lists[e], u, v, w);
    }
    forall e, w: Vertex | e in h.lists && w in h.lists[e] ensures w in h.sets {
      if e in g.sets[u] {
        InReplaced(g.lists[e], u, v, w);
      }
    }
  }

  lemma DistinctReplaced(s: seq<Vertex?>, u: Vertex, v: Vertex?)
    requires Distinct(s) && u != v
    ensures Distinct(Replace(s, u, v)) <==> v == null || u !in s || v !in s
  {
    var t := Replace(s, u, v);
    if v != null && u in s && v in s {
      var i, j :| 0 <= i < |s| && 0 <= j < |s| && s[i] == u && s[j] == v;
      assert t[i] == v && t[j] == v;
    }
  }

  /** Merging vertices doubles one exactly if an edge is incident to both. */
  lemma DistinctAfterRetargeting(g: Incidence, u: Vertex, v: Vertex?)
    requires Linked(g) && AllDistinct(g) && u in g.sets && u != v && (v != null ==> v in g.sets)
    ensures AllDistinct(Retargeted(g, u, v, g.sets[u])) <==> v == null || g.sets[u] !! g.sets[v]
  {
    hide Distinct, Replace;
    var h := Retargeted(g, u, v, g.sets[u]);
    forall e | e in g.lists
      ensures Distinct(h.lists[e]) <==> v == null || u !in g.lists[e] || v !in g.lists[e]
    {
      DistinctReplaced(g.lists[e], u, v);
    }
    if v != null && !(g.sets[u] !! g.sets[v]) {
      var e :| e in g.sets[u] && e in g.sets[v];
      assert !Distinct(h.lists[e]);
    }
  }

  /** Two vertices that share an edge: the merged vertex is in that edge twice. */
  lemma MergedTwice(u: Vertex, v: Vertex)
    requires u != v
    ensures Distinct([u, v]) && !Distinct(Replace([v, u], u, v))
  {
    assert Replace([v, u], u, v) == [v, v];
    assert [v, v][0] == [v, v][1];
  }

  /** The edges in done are gone. */
  ghost function WithoutEdges(g: Incidence, done: set<Edge>): Incidence {
    Incidence(map e | e in g.lists && e !in done :: g.lists[e], map w | w in g.sets :: g.sets[w] - done)
  }

  lemma EdgeLinks(g: Incidence, e: Edge)
    requires Linked(g)
    ensures e in g.lists ==> forall w: Vertex :: w in g.lists[e] ==> w in g.sets && e in g.sets[w]
    ensures forall w :: w in g.sets && e in g.sets[w] ==> e in g.lists && w in g.lists[e]
  {
  }

  lemma LinkedWithoutEdges(g: Incidence, done: set<Edge>)
    requires Linked(g)
    ensures Linked(WithoutEdges(g, done)) && (AllDistinct(g) ==> AllDistinct(WithoutEdges(g, done)))
  {
  }

  ghost function WithEdge(g: Incidence, e: Edge, list: seq<Vertex?>): Incidence {
    Incidence(g.lists[e := list], map w | w in g.sets :: if w in list then g.sets[w] + {e} else g.sets[w])
  }

  lemma LinkedWithEdge(g: Incidence, e: Edge, list: seq<Vertex?>)
    requires Linked(g) && e !in g.lists && forall w: Vertex :: w in list ==> w in g.sets
    ensures Linked(WithEdge(g, e, list)) && (AllDistinct(g) && Distinct(list) ==> AllDistinct(WithEdge(g, e, list)))
  {
    hide Distinct;
  }

  lemma WithIsolated(g: Incidence, v: Vertex)
    requires Linked(g)
    ensures v !in g.sets ==> Linked(Incidence(g.lists, g.sets[v := {}]))
    ensures AllDistinct(g) ==> AllDistinct(Incidence(g.lists, g.sets[v := {}]))
  {
    hide Distinct;
  }

  // ----- Steps of the loops

  /** e's list has been gone through up to position n. */
  ghost function RetargetedBelow(g: Incidence, e: Edge, u: Vertex, v: Vertex?, n: nat): Incidence
    requires e in g.lists && n <= |g.lists[e]|
  {
    Incidence(g.lists[e := ReplaceBelow(g.lists[e], u, v, n)], if u in g.lists[e][..n] then Moved(g.sets, e, u, v) else g.sets)
  }

  lemma MovedTwice(sets: map<Vertex, set<Edge>>, e: Edge, from: Vertex?, to: Vertex?)
    ensures Moved(Moved(sets, e, from, to), e, from, to) == Moved(sets, e, from, to)
  {
    var a, b := Moved(Moved(sets, e, from, to), e, from, to), Moved(sets, e, from, to);
    forall w | w in sets ensures a[w] == b[w] {
    }
  }

  lemma RetargetStep(g: Incidence, e: Edge, u: Vertex, v: Vertex?, n: nat)
    requires e in g.lists && n < |g.lists[e]|
    ensures var h := RetargetedBelow(g, e, u, v, n);
            && h.lists[e][n] == g.lists[e][n]
            && RetargetedBelow(g, e, u, v, n + 1) == if h.lists[e][n] == u then WithVertex(h, e, n, v) else h
  {
    var l, h := g.lists[e], RetargetedBelow(g, e, u, v, n);
    assert l[..n + 1] == l[..n] + [l[n]];
    if l[n] == u {
      assert ReplaceBelow(l, u, v, n + 1) == ReplaceBelow(l, u, v, n)[n := v];
      MovedTwice(g.sets, e, u, v);
      assert RetargetedBelow(g, e, u, v, n + 1).lists == WithVertex(h, e, n, v).lists;
    } else {
      assert ReplaceBelow(l, u, v, n + 1) == ReplaceBelow(l, u, v, n);
    }
  }

  lemma RetargetedWhole(g: Incidence, e: Edge, u: Vertex, v: Vertex?)
    requires e in g.lists && u in g.lists[e]
    ensures RetargetedBelow(g, e, u, v, 0) == g
    ensures RetargetedBelow(g, e, u, v, |g.lists[e]|) == Retargeted(g, u, v, {e})
  {
    var l := g.lists[e];
    assert l[..|l|] == l;
    assert ReplaceBelow(l, u, v, 0) == l;
    assert g.lists[e := l] == g.lists;
    assert RetargetedBelow(g, e, u, v, |l|).lists == Retargeted(g, u, v, {e}).lists;
    assert RetargetedBelow(g, e, u, v, |l|).sets == Retargeted(g, u, v, {e}).sets;
  }

  lemma RetargetedOneMore(g: Incidence, u: Vertex, v: Vertex?, done: set<Edge>, e: Edge)
    requires e !in done
    ensures Retargeted(Retargeted(g, u, v, done), u, v, {e}) == Retargeted(g, u, v, done + {e})
  {
    hide Replace;
    var a, b := Retargeted(Retargeted(g, u, v, done), u, v, {e}), Retargeted(g, u, v, done + {e});
    assert a.lists == b.lists;
    forall w | w in g.sets ensures a.sets[w] == b.sets[w] {
    }
    assert a.sets == b.sets;
  }

  lemma RetargetedNone(g: Incidence, u: Vertex, v: Vertex?)
    ensures Retargeted(g, u, v, {}) == g
  {
    assert Retargeted(g, u, v, {}).lists == g.lists;
    forall w | w in g.sets ensures Retargeted(g, u, v, {}).sets[w] == g.sets[w] {
    }
    assert Retargeted(g, u, v, {}).sets == g.sets;
  }

  lemma WithoutNone(g: Incidence)
    ensures WithoutEdges(g, {}) == g
  {
    var h := WithoutEdges(g, {});
    assert h.lists == g.lists;
    forall w | w in g.sets ensures h.sets[w] == g.sets[w] {
    }
    assert h.sets == g.sets;
  }

  lemma WithoutOneMore(g: Incidence, done: set<Edge>, e: Edge)
    ensures WithoutEdges(WithoutEdges(g, done), {e}) == WithoutEdges(g, done + {e})
  {
    var a, b := WithoutEdges(WithoutEdges(g, done), {e}), WithoutEdges(g, done + {e});
    assert a.lists == b.lists;
    forall w | w in g.sets ensures a.sets[w] == b.sets[w] {
    }
    assert a.sets == b.sets;
  }

  lemma RetargetedSame(g: Incidence, u: Vertex)
    requires u in g.sets
    ensures Retargeted(g, u, u, g.sets[u]) == g
  {
    var h := Retargeted(g, u, u, g.sets[u]);
    forall e | e in g.lists ensures h.lists[e] == g.lists[e] {
    }
    assert h.lists == g.lists;
    forall w | w in g.sets ensures h.sets[w] == g.sets[w] {
    }
    assert h.sets == g.sets;
  }

  lemma RetargetedEmpties(g: Incidence, u: Vertex, v: Vertex?)
    requires u in g.sets && u != v
    ensures Retargeted(g, u, v, g.sets[u]).sets[u] == {}
  {
  }

  /** A loop over all is done with some of it and has the rest to go. */
  ghost predicate Partition(all: set<Edge>, done: set<Edge>, rest: set<Edge>) {
    all == done + rest && done !! rest
  }

  lemma PartitionStep(all: set<Edge>, done: set<Edge>, rest: set<Edge>, e: Edge)
    requires Partition(all, done, rest) && e in rest
    ensures e in all && e !in done && Partition(all, done + {e}, rest - {e}) && |rest - {e}| < |rest|
  {
  }

  lemma PartitionStart(all: set<Edge>, done: set<Edge>)
    ensures done == {} ==> Partition(all, done, all)
    ensures Partition(all, done, {}) ==> done == all
  {
  }

  ghost predicate EachDistinct(es: set<Edge>)
    reads es`vertices
  {
    forall e :: e in es ==> Distinct(e.vertices)
  }

  lemma DistinctAt(es: set<Edge>, e: Edge)
    requires EachDistinct(es) && e in es
    ensures Distinct(e.vertices)
  {
  }

  lemma NoneDistinct()
    ensures EachDistinct({})
  {
  }

  // ----- The graph

  class HyperGraph {
    var vertices: map<int, Vertex>
    var edges: set<Edge>
    /** Every vertex an edge of the graph may refer to, filed in the graph or not. */
    ghost var universe: set<Vertex>

    constructor ()
      ensures Valid() && vertices == map[] && edges == {} && universe == {}
    {
      vertices, edges, universe := map[], {}, {};
    }

    ghost function Links(): Incidence
      reads this`edges, this`universe, universe`edges, edges`vertices
    {
      Incidence(map e | e in edges :: e.vertices, map v | v in universe :: v.edges)
    }

    /** Vertices are filed under their own ids. */
    ghost predicate Filed()
      reads this`vertices, this`universe, universe`id
    {
      forall k :: k in vertices ==> vertices[k] in universe && vertices[k].id == k
    }

    /** The links are consistent; an edge may still have a vertex twice. */
    ghost predicate Sound()
      reads this, universe, edges
    {
      Linked(Links()) && Filed()
    }

    ghost predicate Valid()
      reads this, universe, edges
    {
      Sound() && AllDistinct(Links())
    }

    method AddVertex(v: Vertex) returns (ok: bool)
      requires Valid() && (v in universe || v.edges == {})
      modifies this
      ensures Valid() && edges == old(edges) && universe == old(universe) + {v}
      ensures ok <==> v.id !in old(vertices)
      ensures vertices == if ok then old(vertices)[v.id := v] else old(vertices)
    {
      hide Linked, AllDistinct;
      WithIsolated(Links(), v);
      ghost var g := Links();
      universe := universe + {v};
      assert Links() == if v in g.sets then g else Incidence(g.lists, g.sets[v := {}]);
      if v.id in vertices {
        return false;
      }
      vertices := vertices[v.id := v];
      assert Links() == if v in g.sets then g else Incidence(g.lists, g.sets[v := {}]);
      return true;
    }

    /**
     Files v under a new id. If that id is taken the vertex drops out of the graph, although the result
     is true.
     */
    method ChangeId(v: Vertex, newId: int) returns (ok: bool)
      requires Valid()
      modifies this`vertices, v`id
      ensures Valid() && Links() == old(Links())
      ensures ok <==> old(v.id) in old(vertices) && old(vertices[v.id]) == v
      ensures !ok ==> v.id == old(v.id) && vertices == old(vertices)
      ensures ok ==> v.id == newId
      ensures ok ==> (vertices == (old(vertices) - {old(v.id)})[newId := v] <==> newId == old(v.id) || newId !in old(vertices))
      ensures ok && newId != old(v.id) && newId in old(vertices) ==> vertices == old(vertices) - {old(v.id)}
    {
      hide Linked, AllDistinct;
      if v.id !in vertices || vertices[v.id] != v {
        return false;
      }
      ghost var oldId, rest := v.id, vertices - {v.id};
      assert forall k :: k in rest ==> k != oldId && rest[k] == vertices[k] && rest[k] != v;
      vertices := vertices - {v.id};
      v.id := newId;
      assert forall k :: k in rest ==> rest[k] in universe && rest[k].id == k;
      if v.id !in vertices {
        vertices := vertices[v.id := v];
      }
      return true;
    }

    /** Puts v, which may be undefined, at a position of an edge, which may not be in the graph yet. */
    method SetEdgeVertex(e: Edge, pos: nat, v: Vertex?)
      requires pos < |e.vertices| && (v != null ==> v in universe)
      requires e.vertices[pos] != null ==> e.vertices[pos] in universe
      modifies universe`edges, e`vertices
      ensures e.vertices == old(e.vertices)[pos := v]
      ensures e in edges ==> Links() == WithVertex(old(Links()), e, pos, v)
      ensures e !in edges ==> Links() == Incidence(old(Links()).lists, Moved(old(Links()).sets, e, old(e.vertices)[pos], v))
    {
      hide Replace, Linked, AllDistinct, Distinct, Moved;
      Exchange(e, e.vertices[pos], v);
      SetVertex(e, pos, v);
    }

    /** Changes the edge's own list. */
    method SetVertex(e: Edge, pos: nat, v: Vertex?)
      requires pos < |e.vertices|
      modifies e`vertices
      ensures e.vertices == old(e.vertices)[pos := v] && Links().sets == old(Links()).sets
      ensures Links().lists == if e in edges then old(Links()).lists[e := e.vertices] else old(Links()).lists
    {
      ghost var g := Links();
      e.vertices := e.vertices[pos := v];
      if e in edges {
        assert Links().lists == g.lists[e := e.vertices];
      } else {
        assert Links().lists == g.lists;
      }
    }

    method Exchange(e: Edge, vOld: Vertex?, v: Vertex?)
      requires (vOld != null ==> vOld in universe) && (v != null ==> v in universe)
      modifies universe`edges
      ensures Links() == Incidence(old(Links()).lists, Moved(old(Links()).sets, e, vOld, v))
    {
      hide Linked, AllDistinct, Distinct;
      ghost var g := Links();
      if vOld != null {
        vOld.edges := vOld.edges - {e};
      }
      if v != null {
        v.edges := v.edges + {e};
      }
      assert Links().lists == g.lists;
      ghost var sets := Moved(g.sets, e, vOld, v);
      assert Links().sets == sets by {
        assert forall u :: u in universe ==> u.edges == sets[u];
      }
    }

    /** The duplicate check of AddEdge, which distinguishes three lengths. */
    static method HasDuplicates(s: seq<Vertex?>) returns (found: bool)
      requires null !in s
      ensures found <==> !Distinct(s)
    {
      if |s| == 2 {
        return s[0] == s[1];
      } else if |s| == 3 {
        return s[0] == s[1] || s[0] == s[2] || s[1] == s[2];
      } else if |s| > 3 {
        var vertexPointer: set<Vertex?> := {};
        for i := 0 to |s|
          invariant vertexPointer == Elements(s[..i])
        {
          assert s[..i + 1] == s[..i] + [s[i]];
          vertexPointer := vertexPointer + {s[i]};
        }
        assert s[..|s|] == s;
        ElementCount(s);
        return |vertexPointer| != |s|;
      }
      return false;
    }

    /** Adds an edge whose vertices are all defined and different. */
    method AddEdge(e: Edge) returns (ok: bool)
      requires Valid() && forall v: Vertex :: v in e.vertices ==> v in universe
      modifies this`edges, universe`edges
      ensures Valid()
      ensures ok <==> null !in e.vertices && Distinct(e.vertices) && e !in old(edges)
      ensures Links() == if ok then WithEdge(old(Links()), e, e.vertices) else old(Links())
    {
      hide Linked, AllDistinct, Distinct;
      for i := 0 to |e.vertices|
        invariant null !in e.vertices[..i]
      {
        if e.vertices[i] == null {
          return false;
        }
        assert e.vertices[..i + 1] == e.vertices[..i] + [e.vertices[i]];
      }
      assert e.vertices == e.vertices[..|e.vertices|];
      var duplicates := HasDuplicates(e.vertices);
      if duplicates || e in edges {
        return false;
      }
      ghost var g := Links();
      LinkedWithEdge(g, e, e.vertices);
      Connect(e);
      edges := edges + {e};
      assert Links().lists == WithEdge(g, e, e.vertices).lists;
      assert Links().sets == WithEdge(g, e, e.vertices).sets;
      return true;
    }

    method Connect(e: Edge)
      requires null !in e.vertices && forall v: Vertex :: v in e.vertices ==> v in universe
      modifies universe`edges
      ensures forall v :: v in universe ==> v.edges == if v in e.vertices then old(v.edges) + {e} else old(v.edges)
    {
      for i := 0 to |e.vertices|
        invariant forall v :: v in universe ==> v.edges == if v in e.vertices[..i] then old(v.edges) + {e} else old(v.edges)
      {
        assert e.vertices[..i + 1] == e.vertices[..i] + [e.vertices[i]];
        e.vertices[i].edges := e.vertices[i].edges + {e};
      }
      assert e.vertices == e.vertices[..|e.vertices|];
    }

    /** What SetEdgeVertex needs of an edge: all its vertices are known. */
    ghost predicate Known(e: Edge)
      reads e`vertices, this`universe, this`edges
    {
      e in edges && forall v: Vertex :: v in e.vertices ==> v in universe
    }

    /** Puts v wherever e lists u. */
    method RetargetEdge(e: Edge, u: Vertex, v: Vertex?)
      requires Known(e) && u in e.vertices && (v != null ==> v in universe)
      modifies universe`edges, e`vertices
      ensures Links() == Retargeted(old(Links()), u, v, {e})
    {
      hide Retargeted, RetargetedBelow, WithVertex;
      ghost var g := Links();
      assert g.lists[e] == e.vertices;
      RetargetedWhole(g, e, u, v);
      var i := 0;
      while i < |e.vertices|
        invariant i <= |e.vertices| == |g.lists[e]|
        invariant Known(e) && Links() == RetargetedBelow(g, e, u, v, i)
      {
        RetargetStep(g, e, u, v, i);
        assert Links().lists[e] == e.vertices;
        if e.vertices[i] == u {
          SetEdgeVertex(e, i, v);
        }
        i := i + 1;
      }
    }

    /** Goes through the edges of u, as they are now, and puts v for u in each. */
    method RetargetEdges(u: Vertex, v: Vertex?)
      requires Linked(Links()) && u in universe && (v != null ==> v in universe)
      modifies universe`edges, edges`vertices
      ensures Links() == Retargeted(old(Links()), u, v, old(u.edges)) && Linked(Links())
    {
      hide *;
      ghost var g := Links();
      LinksAt(u);
      RetargetedNone(g, u, v);
      PartitionStart(u.edges, {});
      if v != null {
        LinksAt(v);
      }
      LinkedAfterRetargeting(g, u, v);
      var tmp := u.edges;
      ghost var all, done := u.edges, {};
      while tmp != {}
        invariant Partition(all, done, tmp)
        invariant Links() == Retargeted(g, u, v, done)
        decreases |tmp|
      {
        var e :| e in tmp;
        PartitionStep(all, done, tmp, e);
        StillKnown(g, u, v, done, e);
        RetargetEdge(e, u, v);
        RetargetedOneMore(g, u, v, done, e);
        tmp := tmp - {e};
        done := done + {e};
      }
      PartitionStart(all, done);
    }

    lemma LinksAt(u: Vertex)
      requires u in universe
      ensures u in Links().sets && Links().sets[u] == u.edges
    {
    }

    /** An edge whose turn has not come yet still lists u. */
    lemma StillKnown(g: Incidence, u: Vertex, v: Vertex?, done: set<Edge>, e: Edge)
      requires Linked(g) && Links() == Retargeted(g, u, v, done) && u in g.sets && e in g.sets[u] && e !in done
      ensures Known(e) && u in e.vertices && e in edges
    {
      hide Replace, Linked;
      EdgeLinks(g, e);
      assert e in g.lists && Links().lists[e] == g.lists[e];
      assert forall w :: w in g.sets <==> w in Links().sets;
    }

    /** Undefines v in all its edges. */
    method DetachVertex(v: Vertex) returns (ok: bool)
      requires Sound() && v in universe && (v.id in vertices ==> vertices[v.id] == v)
      modifies universe`edges, edges`vertices
      ensures ok <==> v.id in vertices
      ensures Links() == if ok then Retargeted(old(Links()), v, null, old(v.edges)) else old(Links())
      ensures Sound() && (old(AllDistinct(Links())) ==> AllDistinct(Links()))
      ensures ok ==> v.edges == {}
    {
      hide Linked, AllDistinct, Filed;
      if v.id !in vertices {
        return false;
      }
      ghost var g := Links();
      LinksAt(v);
      RetargetEdges(v, null);
      if AllDistinct(g) {
        DistinctAfterRetargeting(g, v, null);
      }
      LinksAt(v);
      return true;
    }

    /** Takes an edge out of the graph and out of the sets of its vertices. */
    method RemoveEdge(e: Edge) returns (ok: bool)
      requires Linked(Links()) && (e in edges ==> Distinct(e.vertices))
      modifies this`edges, universe`edges
      ensures ok <==> e in old(edges)
      ensures Links() == if ok then WithoutEdges(old(Links()), {e}) else old(Links())
      ensures Linked(Links()) && (old(Valid()) ==> Valid())
    {
      hide AllDistinct, Filed, Distinct;
      if e !in edges {
        return false;
      }
      ghost var g := Links();
      assert g.lists[e] == e.vertices && forall v :: v in universe ==> g.sets[v] == v.edges;
      LinkedWithoutEdges(g, {e});
      EdgeLinks(g, e);
      hide Linked;
      edges := edges - {e};
      var _ := Disconnect(e);
      assert Links().lists == WithoutEdges(g, {e}).lists;
      forall w | w in universe ensures w.edges == g.sets[w] - {e} {
      }
      assert Links().sets == WithoutEdges(g, {e}).sets;
      return true;
    }

    /**
     Takes e out of the set of each of its vertices. A vertex that does not hold e any more fails the
     assertion there; that happens exactly if e has a vertex twice.
     */
    method Disconnect(e: Edge) returns (intact: bool)
      requires forall v: Vertex :: v in e.vertices ==> v in universe && e in v.edges
      modifies universe`edges
      ensures intact <==> Distinct(e.vertices)
      ensures intact ==> forall v :: v in universe ==> v.edges == if v in e.vertices then old(v.edges) - {e} else old(v.edges)
    {
      for i := 0 to |e.vertices|
        invariant forall v :: v in universe ==> v.edges == if v in e.vertices[..i] then old(v.edges) - {e} else old(v.edges)
        invariant Distinct(e.vertices[..i])
      {
        assert e.vertices[..i + 1] == e.vertices[..i] + [e.vertices[i]];
        var v := e.vertices[i];
        if v == null {
          continue;
        }
        if e !in v.edges {
          assert v in e.vertices[..i];
          return false;
        }
        assert v !in e.vertices[..i];
        v.edges := v.edges - {e};
      }
      assert e.vertices == e.vertices[..|e.vertices|];
      return true;
    }

    method RemoveEdgesOf(v: Vertex)
      requires Linked(Links()) && v in universe && EachDistinct(v.edges)
      modifies this`edges, universe`edges
      ensures Links() == WithoutEdges(old(Links()), old(v.edges))
    {
      hide *;
      ghost var g, all, done := Links(), v.edges, {};
      WithoutNone(g);
      LinksAt(v);
      PartitionStart(all, done);
      var tmp := v.edges;
      while tmp != {}
        invariant Partition(all, done, tmp) && EachDistinct(all)
        invariant Links() == WithoutEdges(g, done)
        decreases |tmp|
      {
        var e :| e in tmp;
        PartitionStep(all, done, tmp, e);
        DistinctAt(all, e);
        LinkedWithoutEdges(g, done);
        StillThere(g, v, done, e);
        var _ := RemoveEdge(e);
        WithoutOneMore(g, done, e);
        tmp := tmp - {e};
        done := done + {e};
      }
      PartitionStart(all, done);
    }

    lemma StillThere(g: Incidence, v: Vertex, done: set<Edge>, e: Edge)
      requires Linked(g) && Links() == WithoutEdges(g, done) && v in g.sets && e in g.sets[v] && e !in done
      ensures e in edges
    {
      EdgeLinks(g, e);
      hide Linked;
      assert e in Links().lists;
    }

    lemma SoundParts()
      requires Sound()
      ensures Linked(Links()) && Filed()
    {
    }

    method Unfile(v: Vertex)
      requires Filed()
      modifies this`vertices
      ensures vertices == old(vertices) - {v.id} && Filed()
    {
      vertices := vertices - {v.id};
    }

    /** Takes a vertex out of the graph, together with its edges or, detached, leaving them behind. */
    method RemoveVertex(v: Vertex, detach: bool) returns (ok: bool)
      requires Sound() && v in universe && (v.id in vertices ==> vertices[v.id] == v)
      requires EachDistinct(v.edges)
      modifies this`vertices, this`edges, universe`edges, edges`vertices
      ensures ok <==> v.id in old(vertices)
      ensures vertices == if ok then old(vertices) - {v.id} else old(vertices)
      ensures Links() == if !ok then old(Links()) else if detach then Retargeted(old(Links()), v, null, old(v.edges))
                         else WithoutEdges(old(Links()), old(v.edges))
      ensures Sound() && (old(AllDistinct(Links())) ==> AllDistinct(Links()))
    {
      hide *;
      if detach {
        var found := DetachVertex(v);
        WithoutNone(Links());
        NoneDistinct();
      }
      if v.id !in vertices {
        return false;
      }
      SoundParts();
      LinkedWithoutEdges(Links(), v.edges);
      RemoveEdgesOf(v);
      Unfile(v);
      SoundFrom();
      return true;
    }

    lemma SoundFrom()
      requires Linked(Links()) && Filed()
      ensures Sound()
    {
    }

    /**
     Puts vBig for vSmall in all edges. The links stay consistent in any case; a vertex ends up twice in an
     edge exactly if the two vertices shared an edge.
     */
    method MergeVertices(vBig: Vertex, vSmall: Vertex, erase: bool) returns (ok: bool)
      requires Valid() && vBig in universe && vSmall in universe
      requires vSmall.id in vertices ==> vertices[vSmall.id] == vSmall
      modifies this`vertices, this`edges, universe`edges, edges`vertices
      ensures ok <==> vBig.id in old(vertices) && vSmall.id in old(vertices)
      ensures Links() == if !ok then old(Links())
                         else if erase && vBig == vSmall then WithoutEdges(old(Links()), old(vSmall.edges))
                         else Retargeted(old(Links()), vSmall, vBig, old(vSmall.edges))
      ensures vertices == if ok && erase then old(vertices) - {vSmall.id} else old(vertices)
      ensures Sound()
      ensures Valid() <==> !ok || vBig == vSmall || old(vBig.edges) !! old(vSmall.edges)
    {
      hide *;
      ValidParts();
      SoundParts();
      LinksAt(vBig);
      LinksAt(vSmall);
      if vBig.id !in vertices || vSmall.id !in vertices {
        return false;
      }
      ghost var g := Links();
      RetargetEdges(vSmall, vBig);
      SoundFrom();
      if vBig == vSmall {
        RetargetedSame(g, vSmall);
        LinksAt(vSmall);
        DistinctEdges(vSmall);
      } else {
        DistinctAfterRetargeting(g, vSmall, vBig);
        LinksAt(vSmall);
        RetargetedEmpties(g, vSmall, vBig);
        WithoutNone(Links());
        NoneDistinct();
      }
      if erase {
        var _ := RemoveVertex(vSmall, false);
      }
      ValidParts();
      return true;
    }

    lemma DistinctEdges(v: Vertex)
      requires Linked(Links()) && AllDistinct(Links()) && v in universe
      ensures EachDistinct(v.edges)
    {
      hide Distinct;
      assert Links().sets[v] == v.edges;
      assert forall e :: e in edges ==> Links().lists[e] == e.vertices;
    }

    lemma ValidParts()
      ensures Valid() <==> Sound() && AllDistinct(Links())
    {
    }
  }

  ghost function Elements(s: seq<Vertex?>): set<Vertex?> {
    set v | v in s
  }

  /** A list has as many elements as entries exactly if none is repeated. */
  lemma {:induction false} ElementCount(s: seq<Vertex?>)
    requires null !in s
    ensures |Elements(s)| <= |s| && (|Elements(s)| == |s| <==> Distinct(s))
  {
    if s != [] {
      var front, last := s[..|s| - 1], s[|s| - 1];
      ElementCount(front);
      assert s == front + [last];
      assert Elements(s) == Elements(front) + {last};
      if last in front {
        assert Elements(s) == Elements(front);
        var i :| 0 <= i < |front| && front[i] == last;
        assert s[i] == s[|s| - 1];
      }
    }
  }
}
