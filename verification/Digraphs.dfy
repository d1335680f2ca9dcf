/**
 Finite directed graphs in adjacency form, reachability along paths, and
 strongly connected components.  This is the vocabulary in which the results
 about the component finder and the ordering pipeline are stated.
 */
module Digraphs {
  import opened Collections

  type Vertex = nat

  // An adjacency map: a missing key has no successors.
  type Graph = map<Vertex, set<Vertex>>

  function Succ(g: Graph, v: Vertex): set<Vertex> {
    if v in g then g[v] else {}
  }

  // Every neighbour is itself a key, so that a lookup of a neighbour succeeds.
  ghost predicate Closed(g: Graph) {
    forall v, w :: v in g && w in g[v] ==> w in g
  }

  ghost predicate IsPath(g: Graph, u: Vertex, v: Vertex, p: seq<Vertex>) {
    && |p| > 0 && p[0] == u && p[|p| - 1] == v
    && forall i, j :: 0 <= i && j == i + 1 && j < |p| ==> p[j] in Succ(g, p[i])
  }

  ghost predicate Reaches(g: Graph, u: Vertex, v: Vertex) {
    exists p :: IsPath(g, u, v, p)
  }

  ghost predicate Mutual(g: Graph, u: Vertex, v: Vertex) {
    Reaches(g, u, v) && Reaches(g, v, u)
  }

  // A path with at least one edge leads from v back to v.
  ghost predicate OnCycle(g: Graph, v: Vertex) {
    exists w :: w in Succ(g, v) && Reaches(g, w, v)
  }

  ghost predicate Acyclic(g: Graph) {
    forall v :: v in g ==> !OnCycle(g, v)
  }

  // A maximal strongly connected set: the mutual-reachability class of each of
  // its members.
  ghost predicate IsComponent(g: Graph, c: set<Vertex>) {
    && c != {} && c <= g.Keys
    && forall u, v :: u in c ==> (v in c <==> Mutual(g, u, v))
  }

  // No successor leaves s.
  ghost predicate Forward(g: Graph, s: set<Vertex>) {
    forall v, w :: v in s && w in Succ(g, v) ==> w in s
  }

  // No predecessor lies outside s.
  ghost predicate Backward(g: Graph, s: set<Vertex>) {
    forall v, w :: w in s && w in Succ(g, v) ==> v in s
  }

  lemma ReachSelf(g: Graph, v: Vertex)
    ensures Reaches(g, v, v)
  {
    assert IsPath(g, v, v, [v]);
  }

  lemma ReachEdge(g: Graph, u: Vertex, v: Vertex)
    requires v in Succ(g, u)
    ensures Reaches(g, u, v)
  {
    assert IsPath(g, u, v, [u, v]);
  }

  lemma ReachTrans(g: Graph, u: Vertex, v: Vertex, w: Vertex)
    requires Reaches(g, u, v) && Reaches(g, v, w)
    ensures Reaches(g, u, w)
  {
    var p :| IsPath(g, u, v, p);
    var q :| IsPath(g, v, w, q);
    var r := p + q[1..];
    forall i, j | 0 <= i && j == i + 1 && j < |r|
      ensures r[j] in Succ(g, r[i])
    {
      if j < |p| {
      } else {
        assert r[i] == q[j - |p|] && r[j] == q[j - |p| + 1];
      }
    }
    assert IsPath(g, u, w, r);
  }

  lemma {:induction false} PathStays(g: Graph, s: set<Vertex>, u: Vertex, v: Vertex, p: seq<Vertex>)
    requires IsPath(g, u, v, p) && u in s && Forward(g, s)
    ensures v in s
    decreases |p|
  {
    if |p| > 1 {
      assert p[1] in Succ(g, p[0]);
      PathStays(g, s, p[1], v, p[1..]);
    }
  }

  lemma ReachStays(g: Graph, s: set<Vertex>, u: Vertex, v: Vertex)
    requires Reaches(g, u, v) && u in s && Forward(g, s)
    ensures v in s
  {
    var p :| IsPath(g, u, v, p);
    PathStays(g, s, u, v, p);
  }

  lemma {:induction false} PathComesFrom(g: Graph, s: set<Vertex>, u: Vertex, v: Vertex, p: seq<Vertex>)
    requires IsPath(g, u, v, p) && v in s && Backward(g, s)
    ensures forall w :: w in p ==> w in s
    decreases |p|
  {
    if |p| > 1 {
      var q := p[..|p| - 1];
      assert p[|p| - 1] in Succ(g, p[|p| - 2]);
      PathComesFrom(g, s, u, q[|q| - 1], q);
      assert p == q + [v];
    }
  }

  lemma ReachComesFrom(g: Graph, s: set<Vertex>, u: Vertex, v: Vertex)
    requires Reaches(g, u, v) && v in s && Backward(g, s)
    ensures u in s
  {
    var p :| IsPath(g, u, v, p);
    PathComesFrom(g, s, u, v, p);
  }

  // A larger graph has at least the paths of a smaller one.
  lemma ReachMonotone(g: Graph, h: Graph, u: Vertex, v: Vertex)
    requires Reaches(g, u, v)
    requires forall a, b :: b in Succ(g, a) ==> b in Succ(h, a)
    ensures Reaches(h, u, v)
  {
    var p :| IsPath(g, u, v, p);
    assert IsPath(h, u, v, p);
  }

  ghost function Ancestors(g: Graph, v: Vertex): set<Vertex> {
    set u | u in g && u != v && Reaches(g, u, v)
  }

  // In an acyclic graph the number of ancestors grows along every edge: the
  // ancestor count is a topological rank.
  lemma AncestorsGrow(g: Graph, u: Vertex, v: Vertex)
    requires Acyclic(g) && u in g && v in g[u] && v in g
    ensures |Ancestors(g, u)| < |Ancestors(g, v)|
  {
    ReachEdge(g, u, v);
    assert Reaches(g, v, u) ==> OnCycle(g, u);
    ReachSelf(g, u);
    forall a | a in Ancestors(g, u)
      ensures a in Ancestors(g, v)
    {
      ReachTrans(g, a, u, v);
    }
    assert u in Ancestors(g, v) && u !in Ancestors(g, u);
    Subset(Ancestors(g, u), Ancestors(g, v), u);
  }

  lemma Subset<T>(a: set<T>, b: set<T>, x: T)
    requires a <= b && x in b && x !in a
    ensures |a| < |b|
  {
    var c := b - {x};
    assert a <= c;
    SubsetSize(a, c);
  }
}
