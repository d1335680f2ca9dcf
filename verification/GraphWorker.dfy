/**
 DetockService/DetockExecutor.cc, GraphTd: one stable graph is split into its
 strongly connected components, the components are ordered topologically, and
 the transactions are listed component by component in ascending order.
 */
module GraphWorker {
  import opened Collections
  import opened Digraphs
  import opened SCCFinder
  import opened TopologicalSort

  ghost predicate Connected(g: Graph, a: set<Vertex>, b: set<Vertex>) {
    exists u, v :: u in a && v in b && v in Succ(g, u)
  }

  method IsSCCConnected(scc1: set<Vertex>, scc2: set<Vertex>, graph: Graph) returns (r: bool)
    ensures r <==> Connected(graph, scc1, scc2)
  {
    var todo1 := scc1;
    while todo1 != {}
      invariant todo1 <= scc1
      invariant forall u, v :: u in scc1 - todo1 && v in scc2 ==> v !in Succ(graph, u)
      decreases todo1
    {
      var node1 :| node1 in todo1;
      var todo2 := scc2;
      while todo2 != {}
        invariant todo2 <= scc2
        invariant forall v :: v in scc2 - todo2 ==> v !in Succ(graph, node1)
        decreases todo2
      {
        var node2 :| node2 in todo2;
        if node1 in graph && node2 in graph[node1] {
          return true;
        }
        todo2 := todo2 - {node2};
      }
      todo1 := todo1 - {node1};
    }
    return false;
  }

  ghost predicate Linked(g: Graph, sccs: seq<set<Vertex>>, i: Vertex, j: Vertex) {
    i < |sccs| && j < |sccs| && i != j && Connected(g, sccs[i], sccs[j])
  }

  // The component graph: component numbers, with an edge where some edge of the
  // graph leads from one component to another.
  ghost predicate IsCondensation(g: Graph, sccs: seq<set<Vertex>>, c: Graph) {
    && (forall i: Vertex :: i in c <==> i < |sccs|)
    && (forall i: Vertex, j: Vertex :: i in c ==> (j in c[i] <==> Linked(g, sccs, i, j)))
  }

  method Condense(sccs: seq<set<Vertex>>, graph: Graph) returns (condensation: Graph)
    ensures IsCondensation(graph, sccs, condensation)
  {
    hide Connected;
    condensation := map[];
    for sccNo: nat := 0 to |sccs|
      invariant forall i: Vertex :: i in condensation <==> i < sccNo
      invariant forall i: Vertex, j: Vertex :: i in condensation ==>
                  (j in condensation[i] <==> Linked(graph, sccs, i, j))
    {
      var edges: set<Vertex> := {};
      for sccNo2: nat := 0 to |sccs|
        invariant forall j: Vertex :: j in edges <==> j < sccNo2 && Linked(graph, sccs, sccNo, j)
      {
        if sccNo != sccNo2 {
          var connected := IsSCCConnected(sccs[sccNo], sccs[sccNo2], graph);
          if connected {
            edges := edges + {sccNo2};
          }
        }
      }
      condensation := condensation[sccNo := edges];
    }
  }

  // A path between components is a path between any of their members ...
  lemma {:induction false} CondensedPathIsPath(g: Graph, sccs: seq<set<Vertex>>, c: Graph, p: seq<Vertex>, x: Vertex, y: Vertex)
    requires Components(g, sccs) && IsCondensation(g, sccs, c)
    requires p != [] && IsPath(c, p[0], p[|p| - 1], p) && p[0] in c
    requires p[|p| - 1] in c ==> x in sccs[p[0]] && y in sccs[p[|p| - 1]]
    requires p[|p| - 1] in c
    ensures Reaches(g, x, y)
    decreases |p|
  {
    hide Reaches;
    if |p| == 1 {
      assert Mutual(g, x, y);
    } else {
      assert p[1] in Succ(c, p[0]) && p[1] in c;
      assert IsPath(c, p[1], p[|p| - 1], p[1..]);
      var u, v :| u in sccs[p[0]] && v in sccs[p[1]] && v in Succ(g, u);
      assert Mutual(g, x, u);
      ReachEdge(g, u, v);
      ReachTrans(g, x, u, v);
      CondensedPathIsPath(g, sccs, c, p[1..], v, y);
      ReachTrans(g, x, v, y);
    }
  }

  // ... and a path between members is one between their components.
  lemma {:induction false} PathIsCondensedPath(g: Graph, sccs: seq<set<Vertex>>, c: Graph, p: seq<Vertex>, a: Vertex, b: Vertex)
    requires Closed(g) && Components(g, sccs) && IsCondensation(g, sccs, c)
    requires forall v :: v in g ==> InSome(sccs, v)
    requires a in c && b in c && p != [] && p[0] in sccs[a] && p[|p| - 1] in sccs[b]
    requires IsPath(g, p[0], p[|p| - 1], p)
    ensures Reaches(c, a, b)
    decreases |p|
  {
    hide Reaches, IsComponent;
    if |p| == 1 {
      assert a == b;
      ReachSelf(c, a);
    } else {
      assert p[1] in Succ(g, p[0]);
      assert IsPath(g, p[1], p[|p| - 1], p[1..]);
      var i :| 0 <= i < |sccs| && p[1] in sccs[i];
      PathIsCondensedPath(g, sccs, c, p[1..], i, b);
      if i != a {
        assert Linked(g, sccs, a, i);
        ReachEdge(c, a, i);
        ReachTrans(c, a, i, b);
      }
    }
  }

  // Maximality of the components makes the component graph acyclic.
  lemma CondensationIsAcyclic(g: Graph, sccs: seq<set<Vertex>>, c: Graph)
    requires Components(g, sccs) && IsCondensation(g, sccs, c)
    ensures Acyclic(c)
  {
    forall i | i in c
      ensures !OnCycle(c, i)
    {
      forall j | j in c[i]
        ensures !Reaches(c, j, i)
      {
        NoWayBack(g, sccs, c, i, j);
      }
    }
  }

  lemma NoWayBack(g: Graph, sccs: seq<set<Vertex>>, c: Graph, i: Vertex, j: Vertex)
    requires Components(g, sccs) && IsCondensation(g, sccs, c)
    requires i in c && j in c[i]
    ensures !Reaches(c, j, i)
  {
    var u, v :| u in sccs[i] && v in sccs[j] && v in Succ(g, u);
    ReachEdge(g, u, v);
    assert v in sccs[i] <==> Mutual(g, u, v);
    forall p | IsPath(c, j, i, p)
      ensures false
    {
      CondensedPathIsPath(g, sccs, c, p, v, u);
    }
  }

  // ---------- the emitted order ----------

  // What any order of a stable graph's transactions is measured by: a path
  // decides between two transactions in different components, the transaction
  // key within a component.
  ghost predicate Precedes(g: Graph, u: Vertex, v: Vertex) {
    Reaches(g, u, v) && (Reaches(g, v, u) ==> u < v)
  }

  ghost predicate Emission(g: Graph, keys: seq<Vertex>) {
    && Distinct(keys)
    && (forall v :: v in keys <==> v in g)
    && (forall i, j :: 0 <= i < |keys| && 0 <= j < |keys| && i != j && Precedes(g, keys[i], keys[j]) ==> i < j)
    && (forall i, j, k :: 0 <= i < k < j < |keys| && Mutual(g, keys[i], keys[j]) ==> Mutual(g, keys[i], keys[k]))
  }

  method Smallest(s: set<Vertex>) returns (m: Vertex)
    requires s != {}
    ensures IsLeast(s, m)
  {
    LeastExists(s);
    m :| m in s && IsLeast(s, m);
  }

  // Iteration over an ordered set.
  method Ascending(s: set<Vertex>) returns (r: seq<Vertex>)
    ensures forall v :: v in r <==> v in s
    ensures forall i, j :: 0 <= i < j < |r| ==> r[i] < r[j]
  {
    r := [];
    var todo := s;
    while todo != {}
      invariant todo <= s
      invariant forall v :: v in r <==> v in s && v !in todo
      invariant forall i, w :: 0 <= i < |r| && w in todo ==> r[i] < w
      invariant forall i, j :: 0 <= i < j < |r| ==> r[i] < r[j]
      decreases todo
    {
      var m := Smallest(todo);
      r := r + [m];
      todo := todo - {m};
    }
  }

  // The emitted keys with, for each, the position of its component in the order.
  ghost predicate Blocks(sccs: seq<set<Vertex>>, order: seq<Vertex>, keys: seq<Vertex>, block: seq<nat>) {
    && |block| == |keys|
    && (forall i :: 0 <= i < |keys| ==> block[i] < |order| && order[block[i]] < |sccs| && keys[i] in sccs[order[block[i]]])
    && (forall i, j :: 0 <= i < j < |keys| ==> block[i] <= block[j] && (block[i] == block[j] ==> keys[i] < keys[j]))
  }

  method EmitBlocks(sccs: seq<set<Vertex>>, order: seq<Vertex>) returns (keys: seq<Vertex>, ghost block: seq<nat>)
    requires forall i :: 0 <= i < |order| ==> order[i] < |sccs|
    ensures Blocks(sccs, order, keys, block)
    ensures forall i, v :: 0 <= i < |order| && v in sccs[order[i]] ==> v in keys
  {
    keys, block := [], [];
    for n: nat := 0 to |order|
      invariant Blocks(sccs, order, keys, block)
      invariant forall i :: 0 <= i < |block| ==> block[i] < n
      invariant forall i, v :: 0 <= i < n && v in sccs[order[i]] ==> v in keys
    {
      var scc := Ascending(sccs[order[n]]);
      assert forall v :: v in sccs[order[n]] ==> v in keys + scc;
      keys := keys + scc;
      block := block + seq(|scc|, _ => n);
    }
  }

  lemma EmissionFromBlocks(g: Graph, sccs: seq<set<Vertex>>, c: Graph, order: seq<Vertex>, keys: seq<Vertex>, block: seq<nat>)
    requires Closed(g) && Components(g, sccs) && forall v :: v in g <==> InSome(sccs, v)
    requires IsCondensation(g, sccs, c)
    requires Distinct(order) && PredecessorsFirst(c, order)
    requires forall i :: i in c <==> i in order
    requires Blocks(sccs, order, keys, block)
    requires forall i, v :: 0 <= i < |order| && order[i] < |sccs| && v in sccs[order[i]] ==> v in keys
    ensures Emission(g, keys)
  {
    hide Reaches, IsComponent;
    forall v | v in g
      ensures v in keys
    {
      var k :| 0 <= k < |sccs| && v in sccs[k];
      assert k in order;
    }
    forall i, j | 0 <= i < |keys| && 0 <= j < |keys| && Reaches(g, keys[i], keys[j])
      ensures block[i] <= block[j]
    {
      BlockForward(g, sccs, c, order, keys[i], keys[j], block[i], block[j]);
    }
    forall i, j | 0 <= i < |keys| && 0 <= j < |keys|
      ensures block[i] == block[j] <==> Mutual(g, keys[i], keys[j])
    {
      SameBlock(g, sccs, order, keys[i], keys[j], block[i], block[j]);
    }
  }

  lemma SameBlock(g: Graph, sccs: seq<set<Vertex>>, order: seq<Vertex>, u: Vertex, v: Vertex, i: nat, j: nat)
    requires Components(g, sccs) && Distinct(order)
    requires i < |order| && j < |order| && order[i] < |sccs| && order[j] < |sccs|
    requires u in sccs[order[i]] && v in sccs[order[j]]
    ensures i == j <==> Mutual(g, u, v)
  {
  }

  lemma BlockForward(g: Graph, sccs: seq<set<Vertex>>, c: Graph, order: seq<Vertex>, u: Vertex, v: Vertex, i: nat, j: nat)
    requires Closed(g) && Components(g, sccs) && forall v :: v in g <==> InSome(sccs, v)
    requires IsCondensation(g, sccs, c)
    requires Distinct(order) && PredecessorsFirst(c, order)
    requires i < |order| && j < |order| && order[i] < |sccs| && order[j] < |sccs|
    requires u in sccs[order[i]] && v in sccs[order[j]] && Reaches(g, u, v)
    ensures i <= j
  {
    var p :| IsPath(g, u, v, p);
    PathIsCondensedPath(g, sccs, c, p, order[i], order[j]);
    var q :| IsPath(c, order[i], order[j], q);
    ReachesForward(c, order, order[i], order[j], q, j);
  }

  // One turn of GraphTd on a dequeued stable graph.
  method OrderStableGraph(stableDepGraph: Graph) returns (txnKeys: seq<Vertex>)
    requires Closed(stableDepGraph)
    ensures Emission(stableDepGraph, txnKeys)
  {
    hide Components, Reaches, IsCondensation, PredecessorsFirst, Blocks, Acyclic;
    var sccs := FindSCCs(stableDepGraph);
    txnKeys := [];
    if |sccs| > 0 {
      var condensation := Condense(sccs, stableDepGraph);
      CondensationShape(stableDepGraph, sccs, condensation);
      var orderedSCCs := TopologicalSort.TopologicalSort(condensation);
      assert forall i :: 0 <= i < |orderedSCCs| ==> orderedSCCs[i] in condensation;
      CondensationIsAcyclic(stableDepGraph, sccs, condensation);
      SortIsCompleteIffAcyclic(condensation, orderedSCCs);
      ghost var block;
      txnKeys, block := EmitBlocks(sccs, orderedSCCs);
      EmissionFromBlocks(stableDepGraph, sccs, condensation, orderedSCCs, txnKeys, block);
    }
  }

  lemma CondensationShape(g: Graph, sccs: seq<set<Vertex>>, c: Graph)
    requires IsCondensation(g, sccs, c)
    ensures Closed(c) && forall i: Vertex :: i in c <==> i < |sccs|
  {
  }
}
