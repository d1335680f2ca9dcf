/**
 DetockService/SCCFinder.cc: the queue-driven topological sort that orders the
 components of a batch.
 */
module TopologicalSort {
  import opened Collections
  import opened Digraphs

  // Every predecessor of an element stands before it.
  ghost predicate PredecessorsFirst(g: Graph, order: seq<Vertex>) {
    forall i, u :: 0 <= i < |order| && order[i] in Succ(g, u) ==> u in order[..i]
  }

  // The vertices of s with an edge to v, and how many they are.
  ghost function Into(g: Graph, v: Vertex, s: set<Vertex>): set<Vertex> {
    set u | u in s && v in Succ(g, u)
  }

  ghost function Degree(g: Graph, v: Vertex, s: set<Vertex>): nat {
    |Into(g, v, s)|
  }

  lemma DegreeAdd(g: Graph, s: set<Vertex>, u: Vertex)
    requires u !in s
    ensures forall v :: Degree(g, v, s + {u}) == Degree(g, v, s) + if v in Succ(g, u) then 1 else 0
  {
    forall v
      ensures Degree(g, v, s + {u}) == Degree(g, v, s) + if v in Succ(g, u) then 1 else 0
    {
      assert Into(g, v, s + {u}) == Into(g, v, s) + if v in Succ(g, u) then {u} else {};
    }
  }

  lemma DegreeZero(g: Graph, s: set<Vertex>)
    ensures forall v :: Degree(g, v, s) == 0 <==> forall u :: u in s ==> v !in Succ(g, u)
  {
    forall v
      ensures Degree(g, v, s) == 0 <==> forall u :: u in s ==> v !in Succ(g, u)
    {
      assert Degree(g, v, s) == 0 <==> Into(g, v, s) == {};
      assert forall u :: u in Into(g, v, s) <==> u in s && v in Succ(g, u);
    }
  }

  function At(m: map<Vertex, int>, v: Vertex): int {
    if v in m then m[v] else 0
  }

  // The initial in-degrees: how many vertices of the graph point at each one.
  method CountInDegrees(g: Graph) returns (inDegree: map<Vertex, int>)
    requires Closed(g)
    ensures inDegree.Keys == g.Keys
    ensures forall v :: At(inDegree, v) == Degree(g, v, g.Keys)
  {
    hide Degree;
    DegreeZero(g, {});
    inDegree := map[];
    var todo := g.Keys;
    ghost var seen := {};
    while todo != {}
      invariant todo !! seen && todo + seen == g.Keys
      invariant seen <= inDegree.Keys <= g.Keys
      invariant forall v :: At(inDegree, v) == Degree(g, v, seen)
      decreases todo
    {
      var node :| node in todo;
      if node !in inDegree {
        inDegree := inDegree[node := 0];
      }
      var neighbors := g[node];
      while neighbors != {}
        invariant neighbors <= g[node]
        invariant seen + {node} <= inDegree.Keys <= g.Keys
        invariant forall v :: At(inDegree, v) == Degree(g, v, seen) + if v in g[node] && v !in neighbors then 1 else 0
        decreases neighbors
      {
        var neighbor :| neighbor in neighbors;
        inDegree := inDegree[neighbor := At(inDegree, neighbor) + 1];
        neighbors := neighbors - {neighbor};
      }
      DegreeAdd(g, seen, node);
      todo, seen := todo - {node}, seen + {node};
    }
    assert seen == g.Keys;
  }

  // The vertices whose in-degree is zero, in any order.
  method ZeroDegrees(g: Graph, inDegree: map<Vertex, int>) returns (queue: seq<Vertex>)
    requires inDegree.Keys == g.Keys
    ensures Distinct(queue)
    ensures forall v :: v in queue <==> v in g && inDegree[v] == 0
  {
    queue := [];
    var todo := inDegree.Keys;
    while todo != {}
      invariant todo <= g.Keys && Distinct(queue)
      invariant forall v :: v in queue <==> v in g && v !in todo && inDegree[v] == 0
      decreases todo
    {
      var node :| node in todo;
      if inDegree[node] == 0 {
        queue := queue + [node];
      }
      todo := todo - {node};
    }
  }

  // What the main loop keeps: rest is the set of vertices not yet dequeued.
  ghost predicate Sorting(g: Graph, order: seq<Vertex>, queue: seq<Vertex>, inDegree: map<Vertex, int>, rest: set<Vertex>) {
    && inDegree.Keys == g.Keys && rest <= g.Keys
    && (forall v :: v in order ==> v in g) && (forall v :: v in queue ==> v in rest)
    && (forall v :: v in g ==> (v in rest <==> v !in order))
    && Distinct(order) && Distinct(queue)
    && (forall v :: At(inDegree, v) == Degree(g, v, rest))
    && (forall v :: v in rest ==> (v in queue <==> Degree(g, v, rest) == 0))
    && PredecessorsFirst(g, order)
  }

  // The dequeued vertex has no predecessor left in rest: all stand before it.
  lemma DequeueKeepsOrder(g: Graph, order: seq<Vertex>, queue: seq<Vertex>, inDegree: map<Vertex, int>, rest: set<Vertex>)
    requires Sorting(g, order, queue, inDegree, rest) && queue != []
    ensures PredecessorsFirst(g, order + [queue[0]])
    ensures queue[0] !in order && forall v :: v in Succ(g, queue[0]) ==> v !in order && v != queue[0]
  {
    hide Degree;
    var node := queue[0];
    var order' := order + [node];
    DegreeZero(g, rest);
    assert node in queue;
    forall i, u | 0 <= i < |order'| && order'[i] in Succ(g, u)
      ensures u in order'[..i]
    {
      assert u in g;
      assert order'[..i] == order[..i];
      if i == |order| {
        assert u !in rest;
        assert order[..i] == order;
      }
    }
    NoneBehind(g, order, node);
  }

  lemma NoneBehind(g: Graph, order: seq<Vertex>, node: Vertex)
    requires PredecessorsFirst(g, order) && node !in order
    ensures forall v :: v in order ==> v !in Succ(g, node)
  {
  }

  // One turn of the queue loop: the vertex at the front is output.
  method Output(g: Graph, sorted: seq<Vertex>, degrees: map<Vertex, int>, queue: seq<Vertex>, ghost left: set<Vertex>)
    returns (order: seq<Vertex>, inDegree: map<Vertex, int>, zeroInDegree: seq<Vertex>, ghost rest: set<Vertex>)
    requires Closed(g) && Sorting(g, sorted, queue, degrees, left) && queue != []
    ensures Sorting(g, order, zeroInDegree, inDegree, rest) && rest < left
  {
    hide Degree, PredecessorsFirst;
    var node := queue[0];
    DequeueKeepsOrder(g, sorted, queue, degrees, left);
    assert queue == [node] + queue[1..];
    order := sorted + [node];
    assert left == left - {node} + {node};
    rest := left - {node};
    DegreeAdd(g, rest, node);
    inDegree, zeroInDegree := ReleaseNeighbours(g, node, queue[1..], degrees, rest);
  }

  method TopologicalSort(g: Graph) returns (order: seq<Vertex>)
    requires Closed(g)
    ensures Distinct(order) && forall v :: v in order ==> v in g
    ensures PredecessorsFirst(g, order)
    ensures forall v :: v in g && v !in order ==> exists u :: u in g && u !in order && v in g[u]
  {
    hide Degree, PredecessorsFirst;
    var inDegree := CountInDegrees(g);
    var zeroInDegree := ZeroDegrees(g, inDegree);
    order := [];
    ghost var rest := g.Keys;
    NothingBefore(g);
    while zeroInDegree != []
      invariant Sorting(g, order, zeroInDegree, inDegree, rest)
      decreases rest
    {
      order, inDegree, zeroInDegree, rest := Output(g, order, inDegree, zeroInDegree, rest);
    }
    DegreeZero(g, rest);
  }

  lemma NothingBefore(g: Graph)
    ensures PredecessorsFirst(g, [])
  {
  }

  // The inner loop: one edge less into each neighbour of the dequeued node.
  method ReleaseNeighbours(g: Graph, node: Vertex, queue: seq<Vertex>, degrees: map<Vertex, int>, ghost rest: set<Vertex>)
    returns (inDegree: map<Vertex, int>, zeroInDegree: seq<Vertex>)
    requires Closed(g) && node in g && node !in rest && node !in g[node]
    requires degrees.Keys == g.Keys && rest <= g.Keys && Distinct(queue)
    requires forall v :: v in g[node] ==> v in rest
    requires forall v :: v in queue ==> v in rest
    requires forall v :: At(degrees, v) == Degree(g, v, rest) + if v in g[node] then 1 else 0
    requires forall v :: v in rest ==> (v in queue <==> At(degrees, v) == 0)
    ensures inDegree.Keys == g.Keys && Distinct(zeroInDegree)
    ensures forall v :: v in zeroInDegree ==> v in rest
    ensures forall v :: At(inDegree, v) == Degree(g, v, rest)
    ensures forall v :: v in rest ==> (v in zeroInDegree <==> Degree(g, v, rest) == 0)
  {
    hide Degree;
    inDegree, zeroInDegree := degrees, queue;
    var neighbors := g[node];
    while neighbors != {}
      invariant neighbors <= g[node] && inDegree.Keys == g.Keys && Distinct(zeroInDegree)
      invariant forall v :: v in zeroInDegree ==> v in rest
      invariant forall v :: At(inDegree, v) == Degree(g, v, rest) + if v in neighbors then 1 else 0
      invariant forall v :: v in rest ==> (v in zeroInDegree <==> At(inDegree, v) == 0)
      decreases neighbors
    {
      var neighbor :| neighbor in neighbors;
      inDegree := inDegree[neighbor := inDegree[neighbor] - 1];
      if inDegree[neighbor] == 0 {
        zeroInDegree := zeroInDegree + [neighbor];
      }
      neighbors := neighbors - {neighbor};
    }
  }

  // A set of vertices each of which has a predecessor in the set lies on or
  // behind a cycle, so an acyclic graph is sorted completely ...
  lemma AcyclicHasSource(g: Graph, s: set<Vertex>) returns (v: Vertex)
    requires Acyclic(g) && s != {} && s <= g.Keys
    ensures v in s && forall u :: u in s ==> v !in g[u]
  {
    v :| v in s;
    while exists u :: u in s && v in g[u]
      invariant v in s
      decreases |Ancestors(g, v)|
    {
      var u :| u in s && v in g[u];
      AncestorsGrow(g, u, v);
      v := u;
    }
  }

  // The sort returns every vertex exactly when the graph has no cycle.
  lemma SortIsCompleteIffAcyclic(g: Graph, order: seq<Vertex>)
    requires Distinct(order) && PredecessorsFirst(g, order)
    requires forall v :: v in g && v !in order ==> exists u :: u in g && u !in order && v in g[u]
    ensures (forall v :: v in g ==> v in order) <==> Acyclic(g)
  {
    if Acyclic(g) {
      SortIsComplete(g, order);
    }
    if forall v :: v in g ==> v in order {
      CompleteSortIsAcyclic(g, order);
    }
  }

  lemma SortIsComplete(g: Graph, order: seq<Vertex>)
    requires Acyclic(g)
    requires forall v :: v in g && v !in order ==> exists u :: u in g && u !in order && v in g[u]
    ensures forall v :: v in g ==> v in order
  {
    var missing := set v | v in g && v !in order;
    assert forall v :: v in g && v !in order ==> v in missing;
    if missing != {} {
      var v := AcyclicHasSource(g, missing);
    }
  }

  lemma {:induction false} ReachesForward(g: Graph, order: seq<Vertex>, u: Vertex, v: Vertex, p: seq<Vertex>, j: nat)
    requires PredecessorsFirst(g, order) && IsPath(g, u, v, p)
    requires j < |order| && order[j] == v
    ensures exists i :: 0 <= i <= j && order[i] == u
    decreases |p|
  {
    if |p| > 1 {
      var q := p[..|p| - 1];
      assert p[|p| - 1] in Succ(g, p[|p| - 2]);
      var i :| 0 <= i < j && order[i] == p[|p| - 2];
      ReachesForward(g, order, u, order[i], q, i);
    }
  }

  // ... and a graph that is sorted completely has no cycle.
  lemma CompleteSortIsAcyclic(g: Graph, order: seq<Vertex>)
    requires Distinct(order) && PredecessorsFirst(g, order)
    requires forall v :: v in g ==> v in order
    ensures Acyclic(g)
  {
    assert forall i, v :: 0 <= i < |order| && order[i] == v ==> v !in order[..i];
    forall v | v in g
      ensures !OnCycle(g, v)
    {
      var i :| 0 <= i < |order| && order[i] == v;
      forall w | w in Succ(g, v)
        ensures !Reaches(g, w, v)
      {
        forall p | IsPath(g, w, v, p)
          ensures false
        {
          ReachesForward(g, order, w, v, p, i);
        }
      }
    }
  }
}
