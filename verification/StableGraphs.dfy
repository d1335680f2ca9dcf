/**
 DetockService/DetockExecutor.cc, OrderTd: the dependency graph kept by the
 ordering thread, how it takes in edges and completed vertices, and how one pass
 cuts out and prunes the stable part.  Everything here is on values; the
 executor class is proved to compute it.
 */
module StableGraphs {
  import opened Digraphs

  datatype GraphInfo = Edge(from: Vertex, to: Vertex) | Complete(v: Vertex)

  datatype Order = Order(dep: Graph, rev: Graph, pruned: set<Vertex>, complete: set<Vertex>, incomplete: set<Vertex>)

  // g[u]: the key is created when missing.
  function Touch(g: Graph, u: Vertex): Graph {
    g[u := Succ(g, u)]
  }

  // g[u].insert(v)
  function Insert(g: Graph, u: Vertex, v: Vertex): Graph {
    g[u := Succ(g, u) + {v}]
  }

  function Intake(o: Order, info: GraphInfo): Order {
    match info
    case Edge(u, v) =>
      if u !in o.pruned then
        o.(dep := Insert(o.dep, u, v), rev := Insert(o.rev, v, u), incomplete := o.incomplete + {u, v})
      else
        o.(dep := Touch(o.dep, v), incomplete := o.incomplete + {v})
    case Complete(v) =>
      o.(dep := Touch(o.dep, v), complete := o.complete + {v})
  }

  predicate Arc(g: Graph, u: Vertex, v: Vertex) {
    v in Succ(g, u)
  }

  // ---------- one pass ----------

  // What can still change: everything behind a vertex that is not complete.
  ghost predicate IsUnstable(dep: Graph, incomplete: set<Vertex>, unstable: set<Vertex>) {
    && incomplete <= unstable
    && Forward(dep, unstable)
    && forall v :: v in unstable && v !in incomplete ==> exists i :: i in incomplete && Reaches(dep, i, v)
  }

  // The breadth-first search looks up every vertex it visits.
  function Grown(g: Graph, vs: set<Vertex>): Graph {
    g + map v | v in vs && v !in g :: {}
  }

  function StablePart(dep: Graph, complete: set<Vertex>, unstable: set<Vertex>): Graph {
    map v | v in dep && v in complete && v !in unstable ::
      set w | w in dep[v] && w in complete && w !in unstable
  }

  function Prune(dep: Graph, rev: Graph, stable: set<Vertex>): Graph {
    map u | u in dep && u !in stable :: set v | v in dep[u] && !(v in stable && u in Succ(rev, v))
  }

  // One pass turns o into o', handing out the graph stable (nothing if empty).
  ghost predicate Pass(o: Order, stable: Graph, o': Order) {
    exists unstable ::
      && IsUnstable(o.dep, o.incomplete - o.complete, unstable)
      && stable == StablePart(Grown(o.dep, unstable), o.complete, unstable)
      && o' == Order(
                 Prune(Grown(o.dep, unstable), o.rev, stable.Keys), Grown(o.rev, stable.Keys),
                 o.pruned + stable.Keys, o.complete, o.incomplete - o.complete)
  }

  // ---------- what every step keeps ----------

  ghost predicate EmittedBy(batches: seq<Graph>, n: int, v: Vertex) {
    exists j :: 0 <= j < n && j < |batches| && v in batches[j]
  }

  // The batches handed out so far against all edges ever recorded: each one is
  // the recorded graph between its vertices, its neighbours are keys, and a
  // recorded predecessor of an emitted vertex is emitted no later.
  ghost predicate BatchClosed(all: Graph, batches: seq<Graph>, j: nat)
    requires j < |batches|
  {
    && Closed(batches[j]) && batches[j] != map[]
    && (forall u, v :: Arc(batches[j], u, v) ==> Arc(all, u, v))
    && (forall u, v :: v in batches[j] && Arc(all, u, v) ==> EmittedBy(batches, j + 1, u))
    && (forall u, v :: v in batches[j] && Arc(all, u, v) && u in batches[j] ==> Arc(batches[j], u, v))
  }

  ghost predicate BatchesOk(all: Graph, batches: seq<Graph>) {
    && (forall j :: 0 <= j < |batches| ==> BatchClosed(all, batches, j))
    && (forall i, j, v :: 0 <= i < |batches| && 0 <= j < |batches| && v in batches[i] && v in batches[j] ==> i == j)
  }

  // The kept graph is the recorded one without the pruned vertices.
  ghost predicate GraphOk(o: Order, all: Graph) {
    && (forall u :: u in o.dep ==> u !in o.pruned)
    && (forall u, v :: Arc(o.dep, u, v) ==> Arc(all, u, v) && v !in o.pruned && Arc(o.rev, v, u))
    && (forall u, v :: Arc(all, u, v) && u !in o.pruned && v !in o.pruned ==> Arc(o.dep, u, v))
    && (forall u, v :: Arc(all, u, v) ==> u in o.complete + o.incomplete && v in o.complete + o.incomplete)
    && (forall v :: v in o.complete && v !in o.pruned ==> v in o.dep)
    && o.pruned <= o.complete
  }

  ghost predicate OrderInv(o: Order, all: Graph, batches: seq<Graph>) {
    && GraphOk(o, all)
    && BatchesOk(all, batches)
    && (forall v :: v in o.pruned <==> EmittedBy(batches, |batches|, v))
  }

  function Recorded(all: Graph, info: GraphInfo): Graph {
    if info.Edge? then Insert(all, info.from, info.to) else all
  }

  // What the parsing thread guarantees for the next message: nothing about a
  // vertex follows its completion.
  predicate Timely(o: Order, info: GraphInfo) {
    match info
    case Edge(_, v) => v !in o.complete
    case Complete(v) => v !in o.complete
  }

  lemma IntakeKeeps(o: Order, all: Graph, batches: seq<Graph>, info: GraphInfo)
    requires OrderInv(o, all, batches) && Timely(o, info)
    ensures OrderInv(Intake(o, info), Recorded(all, info), batches)
  {
    hide GraphOk, EmittedBy, Arc;
    IntakeKeepsGraph(o, all, info);
    RecordedArcs(all, info);
    forall j | 0 <= j < |batches|
      ensures BatchClosed(Recorded(all, info), batches, j)
    {
      assert BatchClosed(all, batches, j);
      if info.Edge? {
        FinishedIsEmitted(o, all, batches, info.to, j);
      }
    }
  }

  lemma RecordedArcs(all: Graph, info: GraphInfo)
    ensures forall u, v :: Arc(Recorded(all, info), u, v) <==> Arc(all, u, v) || info == Edge(u, v)
  {
  }

  lemma FinishedIsEmitted(o: Order, all: Graph, batches: seq<Graph>, v: Vertex, j: nat)
    requires OrderInv(o, all, batches) && v !in o.complete && j < |batches|
    ensures v !in batches[j]
  {
  }

  lemma IntakeKeepsGraph(o: Order, all: Graph, info: GraphInfo)
    requires GraphOk(o, all) && Timely(o, info)
    ensures GraphOk(Intake(o, info), Recorded(all, info))
  {
    IntakeArcs(o, info);
    RecordedArcs(all, info);
    hide Arc;
  }

  lemma IntakeArcs(o: Order, info: GraphInfo)
    ensures forall u, v :: Arc(Intake(o, info).dep, u, v) <==> Arc(o.dep, u, v) || (info == Edge(u, v) && u !in o.pruned)
    ensures forall u, v :: Arc(Intake(o, info).rev, v, u) <==> Arc(o.rev, v, u) || (info == Edge(u, v) && u !in o.pruned)
  {
  }

  // A predecessor of a stable vertex is stable or was emitted before.
  lemma StablePredecessor(o: Order, all: Graph, unstable: set<Vertex>, u: Vertex, v: Vertex)
    requires GraphOk(o, all) && IsUnstable(o.dep, o.incomplete - o.complete, unstable)
    requires v in o.complete && v !in unstable && v !in o.pruned && Arc(all, u, v)
    ensures u in o.pruned || (u in o.dep && u in o.complete && u !in unstable && Arc(o.dep, u, v))
  {
    hide Reaches;
  }

  lemma PassKeeps(o: Order, all: Graph, batches: seq<Graph>, stable: Graph, o': Order)
    requires OrderInv(o, all, batches) && Pass(o, stable, o')
    ensures stable == map[] ==> OrderInv(o', all, batches)
    ensures stable != map[] ==> OrderInv(o', all, batches + [stable])
  {
    var unstable :|
      && IsUnstable(o.dep, o.incomplete - o.complete, unstable)
      && stable == StablePart(Grown(o.dep, unstable), o.complete, unstable)
      && o' == Order(
                 Prune(Grown(o.dep, unstable), o.rev, stable.Keys), Grown(o.rev, stable.Keys),
                 o.pruned + stable.Keys, o.complete, o.incomplete - o.complete);
    PassKeepsGraph(o, all, unstable, stable, o');
    if stable != map[] {
      PassKeepsBatches(o, all, batches, unstable, stable);
      var b := batches + [stable];
      forall v
        ensures v in o'.pruned <==> EmittedBy(b, |b|, v)
      {
        EmittedAppend(batches, stable, v);
      }
    }
  }

  lemma EmittedAppend(batches: seq<Graph>, stable: Graph, v: Vertex)
    ensures EmittedBy(batches + [stable], |batches| + 1, v) <==> EmittedBy(batches, |batches|, v) || v in stable
  {
    var b := batches + [stable];
    assert b[|batches|] == stable;
    forall j | 0 <= j < |batches|
      ensures b[j] == batches[j]
    {
    }
    if EmittedBy(batches, |batches|, v) {
      var j :| 0 <= j < |batches| && v in batches[j];
      assert v in b[j];
    }
  }

  lemma StableShape(o: Order, all: Graph, unstable: set<Vertex>)
    requires GraphOk(o, all) && IsUnstable(o.dep, o.incomplete - o.complete, unstable)
    ensures var stable := StablePart(Grown(o.dep, unstable), o.complete, unstable);
      && (forall v :: v in stable <==> v in o.dep && v in o.complete && v !in unstable)
      && (forall u, v :: Arc(stable, u, v) <==> u in stable && v in stable && Arc(o.dep, u, v))
  {
    hide Reaches;
    var stable := StablePart(Grown(o.dep, unstable), o.complete, unstable);
    forall u, v | Arc(stable, u, v)
      ensures u in stable && v in stable && Arc(o.dep, u, v)
    {
      assert Arc(o.dep, u, v);
      assert v !in o.pruned;
    }
    forall u, v | u in stable && v in stable && Arc(o.dep, u, v)
      ensures Arc(stable, u, v)
    {
      assert v in Grown(o.dep, unstable)[u];
    }
  }

  lemma PrunedShape(o: Order, all: Graph, unstable: set<Vertex>, stable: set<Vertex>)
    requires GraphOk(o, all)
    ensures var dep := Prune(Grown(o.dep, unstable), o.rev, stable);
      && (forall v :: v in dep <==> (v in o.dep || v in unstable) && v !in stable)
      && (forall u, v :: Arc(dep, u, v) <==> u !in stable && v !in stable && Arc(o.dep, u, v))
  {
  }

  lemma PassKeepsGraph(o: Order, all: Graph, unstable: set<Vertex>, stable: Graph, o': Order)
    requires GraphOk(o, all) && IsUnstable(o.dep, o.incomplete - o.complete, unstable)
    requires stable == StablePart(Grown(o.dep, unstable), o.complete, unstable)
    requires o' == Order(
                     Prune(Grown(o.dep, unstable), o.rev, stable.Keys), Grown(o.rev, stable.Keys),
                     o.pruned + stable.Keys, o.complete, o.incomplete - o.complete)
    ensures GraphOk(o', all)
  {
    hide Arc, Reaches, StablePart, Prune, Grown;
    StableShape(o, all, unstable);
    PrunedShape(o, all, unstable, stable.Keys);
    GrownArcs(o.rev, stable.Keys);
    forall v | v in unstable
      ensures v !in o.pruned
    {
      if v !in o.incomplete - o.complete {
        var i :| i in o.incomplete - o.complete && Reaches(o.dep, i, v);
        UnprunedStays(o, all, i, v);
      }
    }
  }

  lemma GrownArcs(g: Graph, vs: set<Vertex>)
    ensures forall u, v :: Arc(Grown(g, vs), u, v) <==> Arc(g, u, v)
  {
  }

  // Nothing reached from an incomplete vertex has been pruned.
  lemma UnprunedStays(o: Order, all: Graph, i: Vertex, v: Vertex)
    requires GraphOk(o, all) && i !in o.complete && Reaches(o.dep, i, v)
    ensures v !in o.pruned
  {
    if v != i {
      var p :| IsPath(o.dep, i, v, p);
      assert Arc(o.dep, p[|p| - 2], p[|p| - 1]);
    }
  }

  lemma PassKeepsBatches(o: Order, all: Graph, batches: seq<Graph>, unstable: set<Vertex>, stable: Graph)
    requires OrderInv(o, all, batches) && IsUnstable(o.dep, o.incomplete - o.complete, unstable)
    requires stable == StablePart(Grown(o.dep, unstable), o.complete, unstable) && stable != map[]
    ensures BatchesOk(all, batches + [stable])
  {
    hide Arc, Reaches, StablePart, Grown, EmittedBy, GraphOk;
    var b := batches + [stable];
    StableShape(o, all, unstable);
    NewBatchClosed(o, all, batches, unstable, stable);
    forall j | 0 <= j < |batches|
      ensures BatchClosed(all, b, j)
      ensures forall v :: v in stable ==> v !in batches[j]
    {
      EarlierBatch(all, batches, stable, j);
      forall v | v in stable
        ensures v !in batches[j]
      {
        UnprunedNotEmitted(o, all, batches, v, j);
      }
    }
  }

  lemma UnprunedNotEmitted(o: Order, all: Graph, batches: seq<Graph>, v: Vertex, j: nat)
    requires OrderInv(o, all, batches) && v in o.dep && j < |batches|
    ensures v !in batches[j]
  {
  }

  lemma NewBatchClosed(o: Order, all: Graph, batches: seq<Graph>, unstable: set<Vertex>, stable: Graph)
    requires OrderInv(o, all, batches) && IsUnstable(o.dep, o.incomplete - o.complete, unstable)
    requires stable == StablePart(Grown(o.dep, unstable), o.complete, unstable) && stable != map[]
    ensures BatchClosed(all, batches + [stable], |batches|)
  {
    hide Reaches, StablePart, Grown, EmittedBy;
    StableShape(o, all, unstable);
    forall u, v | v in stable && Arc(all, u, v)
      ensures EmittedBy(batches + [stable], |batches| + 1, u) && (u in stable ==> Arc(stable, u, v))
    {
      StablePredecessor(o, all, unstable, u, v);
      EmittedAppend(batches, stable, u);
    }
    assert forall u, v :: u in stable && v in stable[u] ==> Arc(stable, u, v);
  }

  lemma EarlierBatch(all: Graph, batches: seq<Graph>, stable: Graph, j: nat)
    requires j < |batches| && BatchClosed(all, batches, j)
    ensures BatchClosed(all, batches + [stable], j)
  {
    var b := batches + [stable];
    assert b[j] == batches[j];
    forall u, v | v in b[j] && Arc(all, u, v)
      ensures EmittedBy(b, j + 1, u)
    {
      var i :| 0 <= i < j + 1 && u in batches[i];
      assert u in b[i];
    }
  }

  // ---------- what the batches mean for paths ----------

  // Along a recorded path the batch number never decreases ...
  lemma PathBatches(all: Graph, batches: seq<Graph>, u: Vertex, v: Vertex, j: nat)
    requires BatchesOk(all, batches) && j < |batches| && v in batches[j] && Reaches(all, u, v)
    ensures EmittedBy(batches, j + 1, u)
  {
    var s := set i, x | 0 <= i <= j && x in batches[i] :: x;
    forall x, y | y in s && y in Succ(all, x)
      ensures x in s
    {
      assert Arc(all, x, y);
      var i :| 0 <= i <= j && y in batches[i];
      assert BatchClosed(all, batches, i);
      var k :| 0 <= k < i + 1 && x in batches[k];
    }
    ReachComesFrom(all, s, u, v);
  }

  // ... and a path between two vertices of one batch stays in that batch.
  lemma PathInsideBatch(all: Graph, batches: seq<Graph>, u: Vertex, v: Vertex, j: nat)
    requires BatchesOk(all, batches) && j < |batches| && u in batches[j] && v in batches[j]
    ensures Reaches(all, u, v) <==> Reaches(batches[j], u, v)
  {
    assert BatchClosed(all, batches, j);
    if Reaches(batches[j], u, v) {
      assert forall a, b :: b in Succ(batches[j], a) ==> Arc(batches[j], a, b);
      ReachMonotone(batches[j], all, u, v);
    }
    if Reaches(all, u, v) {
      var p :| IsPath(all, u, v, p);
      forall k | 0 <= k < |p|
        ensures p[k] in batches[j]
      {
        OnPath(all, u, v, p, k);
        PathBatches(all, batches, p[k], v, j);
        var i :| 0 <= i < j + 1 && p[k] in batches[i];
        PathBatches(all, batches, u, p[k], i);
      }
      forall i, k | 0 <= i && k == i + 1 && k < |p|
        ensures p[k] in Succ(batches[j], p[i])
      {
        assert Arc(all, p[i], p[k]);
        assert Arc(batches[j], p[i], p[k]);
      }
      assert IsPath(batches[j], u, v, p);
    }
  }

  lemma OnPath(g: Graph, u: Vertex, v: Vertex, p: seq<Vertex>, k: nat)
    requires IsPath(g, u, v, p) && k < |p|
    ensures Reaches(g, u, p[k]) && Reaches(g, p[k], v)
  {
    assert IsPath(g, u, p[k], p[..k + 1]);
    assert IsPath(g, p[k], v, p[k..]);
  }

  // A strongly connected component is emitted whole, in one batch.
  lemma ComponentInOneBatch(all: Graph, batches: seq<Graph>, c: set<Vertex>, v: Vertex, j: nat)
    requires BatchesOk(all, batches) && IsComponent(all, c)
    requires v in c && j < |batches| && v in batches[j]
    ensures forall u :: u in c ==> u in batches[j]
  {
    forall u | u in c
      ensures u in batches[j]
    {
      assert Mutual(all, u, v);
      PathBatches(all, batches, u, v, j);
      var i :| 0 <= i < j + 1 && u in batches[i];
      PathBatches(all, batches, v, u, i);
    }
  }
}
