/**
 DetockService/SCCFinder.cc: the recursive search for the strongly connected
 components, on a context that it mutates.
 */
module SCCFinder {
  import opened Collections
  import opened Digraphs

  // ---------- specification of a partial depth-first search ----------

  // The fields of a search context that matter to the result.
  datatype Dfs = Dfs(idx: map<Vertex, int>, stack: seq<Vertex>, on: set<Vertex>, sccs: seq<set<Vertex>>, next: int)

  ghost predicate InSome(sccs: seq<set<Vertex>>, v: Vertex) {
    exists i :: 0 <= i < |sccs| && v in sccs[i]
  }

  // The components found so far: each one is a whole component of the graph,
  // they are disjoint, and no edge leads from one to a later one.
  ghost predicate Components(g: Graph, sccs: seq<set<Vertex>>) {
    && (forall i :: 0 <= i < |sccs| ==> IsComponent(g, sccs[i]))
    && (forall i, j, v :: 0 <= i < |sccs| && 0 <= j < |sccs| && v in sccs[i] && v in sccs[j] ==> i == j)
    && (forall i, v, w :: 0 <= i < |sccs| && v in sccs[i] && w in Succ(g, v) ==>
          exists j :: 0 <= j <= i && w in sccs[j])
  }

  // The stack holds the set on, in the order of the visit.
  ghost predicate StackOrder(d: Dfs) {
    && (forall v :: v in d.stack <==> v in d.on)
    && (forall v :: v in d.on ==> v in d.idx)
    && (forall i, j :: 0 <= i < j < |d.stack| ==> d.idx[d.stack[i]] < d.idx[d.stack[j]])
  }

  // Every visited vertex is on the stack or in a component, never in both.
  ghost predicate StackShape(d: Dfs) {
    && (forall v :: v in d.idx ==> 0 <= d.idx[v] < d.next)
    && (forall v :: v in d.on ==> v in d.idx)
    && (forall v :: v in d.idx ==> (v in d.on <==> !InSome(d.sccs, v)))
    && (forall v :: InSome(d.sccs, v) ==> v in d.idx)
  }

  // gray: the vertices whose calls are still open.  The others have had all
  // their successors visited.
  ghost predicate NoWhiteSuccessor(g: Graph, gray: set<Vertex>, d: Dfs) {
    forall v, w :: v in d.idx && v !in gray && w in Succ(g, v) ==> w in d.idx
  }

  // An open vertex reaches everything above it on the stack.
  ghost predicate GrayReachesUp(g: Graph, gray: set<Vertex>, d: Dfs)
    requires StackShape(d)
  {
    && (forall x :: x in gray ==> x in d.on)
    && (forall x, y :: x in gray && y in d.on && d.idx[x] <= d.idx[y] ==> Reaches(g, x, y))
  }

  ghost predicate Anchor(g: Graph, gray: set<Vertex>, d: Dfs, y: Vertex, x: Vertex) {
    x in gray && x in d.idx && y in d.idx && d.idx[x] <= d.idx[y] && Reaches(g, y, x)
  }

  // Every closed vertex on the stack reaches an open one at or below it.
  ghost predicate Anchored(g: Graph, gray: set<Vertex>, d: Dfs) {
    forall y :: y in d.on && y !in gray ==> exists x :: Anchor(g, gray, d, y, x)
  }

  lemma AnchorOf(g: Graph, gray: set<Vertex>, d: Dfs, y: Vertex) returns (x: Vertex)
    requires Anchored(g, gray, d) && y in d.on && y in d.idx
    ensures Anchor(g, gray, d, y, x)
  {
    if y in gray {
      ReachSelf(g, y);
      x := y;
    } else {
      x :| Anchor(g, gray, d, y, x);
    }
  }

  ghost predicate Consistent(g: Graph, gray: set<Vertex>, d: Dfs) {
    && Closed(g) && d.idx.Keys <= g.Keys
    && StackOrder(d) && StackShape(d)
    && NoWhiteSuccessor(g, gray, d)
    && GrayReachesUp(g, gray, d)
    && Anchored(g, gray, d)
    && Components(g, d.sccs)
  }

  // e continues the search d.
  ghost predicate Extends(d: Dfs, e: Dfs) {
    && d.next <= e.next
    && d.stack <= e.stack && d.on <= e.on && d.sccs <= e.sccs
    && (forall v :: v in d.idx ==> v in e.idx && e.idx[v] == d.idx[v])
    && (forall v :: v in e.idx && v !in d.idx ==> d.next <= e.idx[v])
  }

  // No edge from what e added to the stack leads below index low on d's stack.
  // For v itself only the edges to done count.
  ghost predicate CrossBound(g: Graph, d: Dfs, e: Dfs, v: Vertex, done: set<Vertex>, low: int) {
    forall x, y :: && x in e.on && x !in d.on && y in d.on && y in d.idx && y in Succ(g, x)
                   && (x == v ==> y in done) ==>
      low <= d.idx[y]
  }

  // The low-link names a vertex of the stack that v reaches.
  ghost predicate LowWitness(g: Graph, e: Dfs, v: Vertex, low: int) {
    exists y :: y in e.on && y in e.idx && e.idx[y] == low && Reaches(g, v, y)
  }

  lemma ExtendsTrans(a: Dfs, b: Dfs, c: Dfs)
    requires Extends(a, b) && Extends(b, c)
    ensures Extends(a, c)
  {
  }

  ghost function Pushed(d: Dfs, v: Vertex): Dfs {
    Dfs(d.idx[v := d.next], d.stack + [v], d.on + {v}, d.sccs, d.next + 1)
  }

  lemma PushKeeps(g: Graph, gray: set<Vertex>, d: Dfs, v: Vertex)
    requires Consistent(g, gray, d) && 0 <= d.next
    requires v in g && v !in d.idx
    requires forall x :: x in gray ==> Reaches(g, x, v)
    ensures Consistent(g, gray + {v}, Pushed(d, v))
    ensures Extends(d, Pushed(d, v))
  {
    var e := Pushed(d, v);
    ReachSelf(g, v);
    assert StackOrder(e);
    assert !InSome(d.sccs, v);
    assert StackShape(e);
    forall y | y in e.on && y !in gray + {v}
      ensures exists x :: Anchor(g, gray + {v}, e, y, x)
    {
      var x :| Anchor(g, gray, d, y, x);
      assert Anchor(g, gray + {v}, e, y, x);
    }
  }

  // What the open call of v knows when it has visited the neighbours in done:
  // d is the search at its entry, e the search now, low its current low-link.
  ghost predicate Exploring(g: Graph, gray: set<Vertex>, d: Dfs, v: Vertex, e: Dfs, done: set<Vertex>, low: int) {
    && v !in gray && v !in d.idx && v in g && done <= g[v]
    && Consistent(g, gray, d)
    && Consistent(g, gray + {v}, e)
    && Extends(Pushed(d, v), e)
    && (forall x :: x in gray ==> Reaches(g, x, v))
    && (forall w :: w in done ==> w in e.idx)
    && v in e.idx && low <= e.idx[v]
    && LowWitness(g, e, v, low)
    && CrossBound(g, d, e, v, done, low)
  }

  ghost predicate Explored(g: Graph, gray: set<Vertex>, d: Dfs, v: Vertex, e: Dfs, low: int) {
    v in g && Exploring(g, gray, d, v, e, g[v], low)
  }

  // What a finished call of w, entered at d and left at e, promises its caller.
  ghost predicate Finished(g: Graph, gray: set<Vertex>, d: Dfs, w: Vertex, e: Dfs, low: int) {
    && Consistent(g, gray, e)
    && Extends(d, e)
    && w in e.idx
    && (w in e.on ==> LowWitness(g, e, w, low))
    && (w !in e.on ==> d.next <= low)
    && CrossBound(g, d, e, w, Succ(g, w), low)
  }

  // The vertices above the entry stack, which the pop loop removes.
  ghost function Popped(d: Dfs, e: Dfs): set<Vertex> {
    e.on - d.on
  }

  // Old and new stack vertices are told apart by their index.
  lemma StackSplit(d: Dfs, e: Dfs, v: Vertex)
    requires StackShape(d) && StackShape(e) && v !in d.idx
    requires Extends(Pushed(d, v), e)
    ensures v in e.on && e.idx[v] == d.next && Extends(d, e)
    ensures forall x :: x in e.on ==> (x in d.on <==> e.idx[x] < d.next)
    ensures forall y :: y in d.on ==> y in e.on && d.idx[y] == e.idx[y]
  {
  }

  // If the low-link stayed at the vertex's own index, the popped vertices are
  // exactly one component.  They all reach v and are reached by it ...
  lemma PoppedMutual(g: Graph, gray: set<Vertex>, d: Dfs, v: Vertex, e: Dfs, x: Vertex)
    requires v in e.idx && Explored(g, gray, d, v, e, e.idx[v])
    requires x in Popped(d, e)
    ensures Mutual(g, v, x)
  {
    hide NoWhiteSuccessor, Components, CrossBound, LowWitness, Reaches;
    StackSplit(d, e, v);
    var z := AnchorOf(g, gray + {v}, e, x);
    ReachSelf(g, v);
    ReachTrans(g, x, z, v);
  }

  // ... no edge leaves them except to components found before ...
  lemma PoppedStays(g: Graph, gray: set<Vertex>, d: Dfs, v: Vertex, e: Dfs, x: Vertex, w: Vertex)
    requires v in e.idx && Explored(g, gray, d, v, e, e.idx[v])
    requires x in Popped(d, e) && w in Succ(g, x)
    ensures w in Popped(d, e) || InSome(e.sccs, w)
  {
  }

  lemma FoundIsWhole(g: Graph, sccs: seq<set<Vertex>>, x: Vertex, y: Vertex)
    requires Components(g, sccs)
    ensures InSome(sccs, y) && Mutual(g, x, y) ==> InSome(sccs, x)
  {
  }

  // ... and so nothing else is mutually reachable with them.
  lemma PoppedIsComponent(g: Graph, gray: set<Vertex>, d: Dfs, v: Vertex, e: Dfs)
    requires v in e.idx && Explored(g, gray, d, v, e, e.idx[v])
    ensures IsComponent(g, Popped(d, e))
  {
    hide NoWhiteSuccessor, GrayReachesUp, Anchored, CrossBound, LowWitness, Reaches;
    StackSplit(d, e, v);
    var c := Popped(d, e);
    assert v in c;
    var s := c + (set i, x | 0 <= i < |e.sccs| && x in e.sccs[i] :: x);
    forall x, w | x in s && w in Succ(g, x)
      ensures w in s
    {
      if x in c {
        PoppedStays(g, gray, d, v, e, x, w);
      }
    }
    forall x, y | x in c
      ensures y in c <==> Mutual(g, x, y)
    {
      PoppedMutual(g, gray, d, v, e, x);
      FoundIsWhole(g, e.sccs, x, y);
      if y in c {
        PoppedMutual(g, gray, d, v, e, y);
        ReachTrans(g, x, v, y);
        ReachTrans(g, y, v, x);
      } else if Reaches(g, x, y) {
        ReachStays(g, s, x, y);
      }
    }
  }

  ghost function Closing(d: Dfs, e: Dfs): Dfs {
    Dfs(e.idx, d.stack, d.on, e.sccs + [Popped(d, e)], e.next)
  }

  lemma InSomeAppend(sccs: seq<set<Vertex>>, c: set<Vertex>)
    ensures forall v :: InSome(sccs + [c], v) <==> InSome(sccs, v) || v in c
  {
    forall v
      ensures InSome(sccs + [c], v) <==> InSome(sccs, v) || v in c
    {
      var t := sccs + [c];
      if InSome(sccs, v) {
        var i :| 0 <= i < |sccs| && v in sccs[i];
        assert v in t[i];
      } else if v in c {
        assert v in t[|sccs|];
      }
    }
  }

  lemma ComponentsAppend(g: Graph, sccs: seq<set<Vertex>>, c: set<Vertex>)
    requires Components(g, sccs) && IsComponent(g, c)
    requires forall v :: v in c ==> !InSome(sccs, v)
    requires forall v, w :: v in c && w in Succ(g, v) ==> w in c || InSome(sccs, w)
    ensures Components(g, sccs + [c])
  {
    var t := sccs + [c];
    forall i, v, w | 0 <= i < |t| && v in t[i] && w in Succ(g, v)
      ensures exists j :: 0 <= j <= i && w in t[j]
    {
      if i < |sccs| {
        var j :| 0 <= j <= i && w in sccs[j];
        assert w in t[j];
      } else if w in c {
        assert w in t[i];
      } else {
        var j :| 0 <= j < |sccs| && w in sccs[j];
        assert w in t[j];
      }
    }
  }

  lemma CloseComponents(g: Graph, gray: set<Vertex>, d: Dfs, v: Vertex, e: Dfs)
    requires v in e.idx && Explored(g, gray, d, v, e, e.idx[v])
    ensures Components(g, Closing(d, e).sccs)
  {
    hide NoWhiteSuccessor, GrayReachesUp, Anchored, CrossBound, LowWitness, Reaches, IsComponent;
    PoppedIsComponent(g, gray, d, v, e);
    forall x, w | x in Popped(d, e) && w in Succ(g, x)
      ensures w in Popped(d, e) || InSome(e.sccs, w)
    {
      PoppedStays(g, gray, d, v, e, x, w);
    }
    assert forall x :: x in Popped(d, e) ==> !InSome(e.sccs, x);
    ComponentsAppend(g, e.sccs, Popped(d, e));
  }

  lemma CloseAnchored(g: Graph, gray: set<Vertex>, d: Dfs, e: Dfs)
    requires Anchored(g, gray, d) && Extends(d, e) && forall y :: y in d.on ==> y in d.idx
    ensures Anchored(g, gray, Closing(d, e))
  {
    hide Reaches;
    forall y | y in d.on && y !in gray
      ensures exists x :: Anchor(g, gray, Closing(d, e), y, x)
    {
      var x := AnchorOf(g, gray, d, y);
      assert Anchor(g, gray, Closing(d, e), y, x);
    }
  }

  lemma CloseKeeps(g: Graph, gray: set<Vertex>, d: Dfs, v: Vertex, e: Dfs)
    requires v in e.idx && Explored(g, gray, d, v, e, e.idx[v])
    ensures Finished(g, gray, d, v, Closing(d, e), e.idx[v])
  {
    hide Anchored, Components, LowWitness, Reaches, InSome;
    StackSplit(d, e, v);
    CloseComponents(g, gray, d, v, e);
    CloseAnchored(g, gray, d, e);
    InSomeAppend(e.sccs, Popped(d, e));
  }

  // Otherwise the vertex stays on the stack, and whatever was anchored at it is
  // anchored further down, at an open vertex below what its low-link names.
  lemma OpenAnchored(g: Graph, gray: set<Vertex>, d: Dfs, v: Vertex, e: Dfs, z: Vertex)
    requires Anchored(g, gray + {v}, e) && Anchored(g, gray, d) && v in e.idx
    requires z in d.on && z in d.idx && z in e.idx && e.idx[z] < e.idx[v] && Reaches(g, v, z)
    requires forall y :: y in e.on ==> y in e.idx
    requires forall y :: y in d.idx ==> y in e.idx && d.idx[y] == e.idx[y]
    ensures Anchored(g, gray, e)
  {
    var x0 := AnchorOf(g, gray, d, z);
    ReachTrans(g, v, z, x0);
    forall y | y in e.on && y !in gray
      ensures exists x :: Anchor(g, gray, e, y, x)
    {
      var x := AnchorOf(g, gray + {v}, e, y);
      if x == v {
        ReachTrans(g, y, v, x0);
        assert Anchor(g, gray, e, y, x0);
      } else {
        assert Anchor(g, gray, e, y, x);
      }
    }
  }

  lemma SmallerGray(g: Graph, gray: set<Vertex>, e: Dfs, v: Vertex)
    requires StackShape(e) && NoWhiteSuccessor(g, gray + {v}, e) && GrayReachesUp(g, gray + {v}, e)
    requires forall w :: w in Succ(g, v) ==> w in e.idx
    ensures NoWhiteSuccessor(g, gray, e) && GrayReachesUp(g, gray, e)
  {
    hide Reaches;
  }

  lemma OpenIsConsistent(g: Graph, gray: set<Vertex>, d: Dfs, v: Vertex, e: Dfs, low: int)
    requires Explored(g, gray, d, v, e, low)
    requires low < e.idx[v]
    ensures Consistent(g, gray, e)
  {
    hide Components, Reaches, Anchored, NoWhiteSuccessor, GrayReachesUp;
    StackSplit(d, e, v);
    SmallerGray(g, gray, e, v);
    var z :| z in e.on && e.idx[z] == low && Reaches(g, v, z);
    OpenAnchored(g, gray, d, v, e, z);
  }

  lemma OpenExtends(g: Graph, gray: set<Vertex>, d: Dfs, v: Vertex, e: Dfs)
    requires Consistent(g, gray, d) && Consistent(g, gray + {v}, e) && v !in d.idx && Extends(Pushed(d, v), e)
    ensures v in e.on && Extends(d, e)
  {
    hide Components, Anchored, NoWhiteSuccessor, GrayReachesUp;
    StackSplit(d, e, v);
  }

  lemma OpenKeeps(g: Graph, gray: set<Vertex>, d: Dfs, v: Vertex, e: Dfs, low: int)
    requires Explored(g, gray, d, v, e, low)
    requires low < e.idx[v]
    ensures Finished(g, gray, d, v, e, low)
  {
    hide Consistent, Reaches;
    OpenIsConsistent(g, gray, d, v, e, low);
    OpenExtends(g, gray, d, v, e);
  }

  // An edge from what the call of w left behind to d's stack crosses e's stack
  // as well, so the smaller of the two bounds holds for all of them.
  lemma CrossBoundTrans(g: Graph, d: Dfs, v: Vertex, e: Dfs, done: set<Vertex>, low: int, w: Vertex, f: Dfs, lowW: int)
    requires CrossBound(g, d, e, v, done, low)
    requires CrossBound(g, e, f, w, Succ(g, w), lowW)
    requires forall y :: y in d.on ==> y in e.on && y in e.idx && y in d.idx && d.idx[y] == e.idx[y]
    requires w !in e.idx
    ensures CrossBound(g, d, f, v, done + {w}, Min(low, lowW))
  {
  }

  lemma LowWitnessStep(g: Graph, v: Vertex, e: Dfs, low: int, w: Vertex, f: Dfs, lowW: int)
    requires LowWitness(g, e, v, low) && w in Succ(g, v)
    requires low < e.next && (w in f.on ==> LowWitness(g, f, w, lowW)) && (w !in f.on ==> e.next <= lowW)
    requires Extends(e, f)
    ensures LowWitness(g, f, v, Min(low, lowW))
  {
    if low <= lowW {
      var y :| y in e.on && y in e.idx && e.idx[y] == low && Reaches(g, v, y);
      assert y in f.on && f.idx[y] == low;
    } else {
      var y :| y in f.on && y in f.idx && f.idx[y] == lowW && Reaches(g, w, y);
      ReachEdge(g, v, w);
      ReachTrans(g, v, w, y);
    }
  }

  lemma ExploringFacts(g: Graph, gray: set<Vertex>, d: Dfs, v: Vertex, e: Dfs, done: set<Vertex>, low: int)
    requires Exploring(g, gray, d, v, e, done, low)
    ensures Extends(Pushed(d, v), e) && low < e.next
    ensures forall y :: y in d.on ==> y in e.on && y in e.idx && y in d.idx && d.idx[y] == e.idx[y]
  {
    hide NoWhiteSuccessor, GrayReachesUp, Anchored, Components, CrossBound, LowWitness, InSome;
  }

  lemma ChildFinished(g: Graph, gray: set<Vertex>, d: Dfs, v: Vertex, e: Dfs, done: set<Vertex>, low: int,
                      w: Vertex, f: Dfs, lowW: int)
    requires Exploring(g, gray, d, v, e, done, low)
    requires w in g[v] && w !in e.idx
    requires Finished(g, gray + {v}, e, w, f, lowW)
    ensures Exploring(g, gray, d, v, f, done + {w}, Min(low, lowW))
  {
    hide Consistent, CrossBound, LowWitness;
    ExploringFacts(g, gray, d, v, e, done, low);
    ExtendsTrans(Pushed(d, v), e, f);
    LowWitnessStep(g, v, e, low, w, f, lowW);
    CrossBoundTrans(g, d, v, e, done, low, w, f, lowW);
  }

  // Where the root of a component is found on the stack.
  lemma PopShape(d: Dfs, v: Vertex, e: Dfs)
    requires StackOrder(d) && StackOrder(e) && v !in d.idx
    requires Extends(Pushed(d, v), e)
    ensures |d.stack| < |e.stack| && e.stack[|d.stack|] == v && e.stack[..|d.stack|] == d.stack
    ensures forall i, j :: 0 <= i < j < |e.stack| ==> e.stack[i] != e.stack[j]
  {
  }

  lemma ExploreStart(g: Graph, gray: set<Vertex>, d: Dfs, v: Vertex)
    requires Consistent(g, gray, d) && 0 <= d.next
    requires v in g && v !in d.idx
    requires forall x :: x in gray ==> Reaches(g, x, v)
    ensures Exploring(g, gray, d, v, Pushed(d, v), {}, d.next)
  {
    PushKeeps(g, gray, d, v);
    StackSplit(d, Pushed(d, v), v);
    ReachSelf(g, v);
    assert LowWitness(g, Pushed(d, v), v, d.next);
  }

  lemma NeighbourSeen(g: Graph, gray: set<Vertex>, d: Dfs, v: Vertex, e: Dfs, done: set<Vertex>, low: int, w: Vertex)
    requires Exploring(g, gray, d, v, e, done, low)
    requires w in g[v] && w in e.idx
    ensures Exploring(g, gray, d, v, e, done + {w}, if w in e.on then Min(low, e.idx[w]) else low)
  {
    StackSplit(d, e, v);
    if w in e.on {
      ReachEdge(g, v, w);
      assert LowWitness(g, e, v, e.idx[w]);
    }
  }

  lemma ReachAll(g: Graph, gray: set<Vertex>, v: Vertex, w: Vertex)
    requires w in Succ(g, v)
    requires forall x :: x in gray ==> Reaches(g, x, v)
    ensures forall x :: x in gray + {v} ==> Reaches(g, x, w)
  {
    ReachEdge(g, v, w);
    forall x | x in gray
      ensures Reaches(g, x, w)
    {
      ReachTrans(g, x, v, w);
    }
  }

  class SCCContext {
    const graph: Graph
    var indices: map<Vertex, int>
    var lowLinks: map<Vertex, int>
    var nodeStack: seq<Vertex>  // the top is the last element
    var onStack: set<Vertex>
    var sccs: seq<set<Vertex>>
    var index: int

    ghost function View(): Dfs
      reads this
    {
      Dfs(indices, nodeStack, onStack, sccs, index)
    }

    ghost predicate Valid(gray: set<Vertex>)
      reads this
    {
      && 0 <= index && Closed(graph)
      && lowLinks.Keys == indices.Keys <= graph.Keys
      && Consistent(graph, gray, View())
    }

    constructor (graph: Graph)
      requires Closed(graph)
      ensures this.graph == graph && Valid({})
      ensures indices == map[] && nodeStack == [] && sccs == []
    {
      this.graph := graph;
      indices, lowLinks := map[], map[];
      nodeStack, onStack := [], {};
      sccs, index := [], 0;
    }

    method TarjanDFS(node: Vertex, ghost gray: set<Vertex>)
      requires Valid(gray) && node in graph && node !in indices
      requires forall x :: x in gray ==> Reaches(graph, x, node)
      modifies this
      ensures Valid(gray)
      ensures node in lowLinks && Finished(graph, gray, old(View()), node, View(), lowLinks[node])
      ensures forall v :: v in old(lowLinks) ==> v in lowLinks && lowLinks[v] == old(lowLinks[v])
      decreases graph.Keys - indices.Keys, 0
    {
      hide Exploring, Finished, Consistent, Reaches;
      ghost var d := View();
      ExploreStart(graph, gray, d, node);
      indices := indices[node := index];
      lowLinks := lowLinks[node := index];
      index := index + 1;
      nodeStack := nodeStack + [node];
      onStack := onStack + {node};

      var todo := graph[node];
      ghost var done := {};
      assert View() == Pushed(d, node);
      while todo != {}
        invariant todo <= graph[node] && done == graph[node] - todo
        invariant Valid(gray + {node}) && node in lowLinks
        invariant Exploring(graph, gray, d, node, View(), done, lowLinks[node])
        invariant forall v :: v in old(lowLinks) ==> v in lowLinks && lowLinks[v] == old(lowLinks[v])
        decreases todo
      {
        var neighbor :| neighbor in todo;
        Visit(node, neighbor, gray, d, done);
        todo, done := todo - {neighbor}, done + {neighbor};
      }
      assert done == graph[node];
      CloseIfRoot(node, gray, d);
    }

    // One turn of the loop over the neighbours of node.
    method Visit(node: Vertex, neighbor: Vertex, ghost gray: set<Vertex>, ghost d: Dfs, ghost done: set<Vertex>)
      requires Valid(gray + {node}) && node in lowLinks && node in graph && neighbor in graph[node] && neighbor in graph
      requires neighbor in Succ(graph, node) && forall x :: x in gray ==> Reaches(graph, x, node)
      requires Exploring(graph, gray, d, node, View(), done, lowLinks[node])
      modifies this
      ensures Valid(gray + {node}) && node in lowLinks
      ensures Exploring(graph, gray, d, node, View(), done + {neighbor}, lowLinks[node])
      ensures forall v :: v in old(lowLinks) && v != node ==> v in lowLinks && lowLinks[v] == old(lowLinks[v])
      decreases graph.Keys - indices.Keys, 1
    {
      hide Exploring, Finished, Consistent, Closed, Reaches, Succ;
      ReachAll(graph, gray, node, neighbor);
      ghost var e, low := View(), lowLinks[node];
      if neighbor !in indices {
        TarjanDFS(neighbor, gray + {node});
        ChildFinished(graph, gray, d, node, e, done, low, neighbor, View(), lowLinks[neighbor]);
        lowLinks := lowLinks[node := Min(lowLinks[node], lowLinks[neighbor])];
      } else {
        NeighbourSeen(graph, gray, d, node, e, done, low, neighbor);
        if neighbor in onStack {
          lowLinks := lowLinks[node := Min(lowLinks[node], indices[neighbor])];
        }
      }
    }

    // The end of the call: the root of a component takes it off the stack.
    method CloseIfRoot(node: Vertex, ghost gray: set<Vertex>, ghost d: Dfs)
      requires Valid(gray + {node}) && node in lowLinks
      requires Explored(graph, gray, d, node, View(), lowLinks[node])
      modifies this`nodeStack, this`onStack, this`sccs
      ensures Valid(gray)
      ensures node in lowLinks && Finished(graph, gray, d, node, View(), lowLinks[node])
    {
      hide StackShape, NoWhiteSuccessor, GrayReachesUp, Anchored, Components, LowWitness, CrossBound;
      ghost var e := View();
      if lowLinks[node] == indices[node] {
        CloseKeeps(graph, gray, d, node, e);
        PopShape(d, node, e);
        var scc := PopComponent(node, |d.stack|);
        sccs := sccs + [scc];
        assert onStack == d.on;
        assert View() == Closing(d, e);
      } else {
        assert e.idx[node] == indices[node];
        OpenKeeps(graph, gray, d, node, e, lowLinks[node]);
      }
    }

    // The do-while loop of the component's root: pops up to and including node.
    method PopComponent(node: Vertex, ghost base: nat) returns (scc: set<Vertex>)
      requires base < |nodeStack| && nodeStack[base] == node
      requires forall i, j :: 0 <= i < j < |nodeStack| ==> nodeStack[i] != nodeStack[j]
      requires forall v :: v in nodeStack <==> v in onStack
      modifies this`nodeStack, this`onStack
      ensures nodeStack == old(nodeStack[..base])
      ensures forall v :: v in nodeStack <==> v in onStack
      ensures onStack <= old(onStack) && scc == old(onStack) - onStack
    {
      scc := {};
      var more := true;
      while more
        invariant base <= |nodeStack| <= |old(nodeStack)| && nodeStack == old(nodeStack)[..|nodeStack|]
        invariant more <==> base < |nodeStack|
        invariant forall v :: v in nodeStack <==> v in onStack
        invariant onStack <= old(onStack) && scc == old(onStack) - onStack
        decreases |nodeStack|
      {
        var w := nodeStack[|nodeStack| - 1];
        assert nodeStack == nodeStack[..|nodeStack| - 1] + [w];
        nodeStack := nodeStack[..|nodeStack| - 1];
        onStack := onStack - {w};
        scc := scc + {w};
        more := w != node;
      }
    }
  }

  // With no call open the stack is empty: every visited vertex is in a component.
  lemma NothingOpen(g: Graph, d: Dfs)
    requires Consistent(g, {}, d)
    ensures forall v :: v in d.idx ==> InSome(d.sccs, v)
  {
  }

  // The strongly connected components of the graph: each vertex is in exactly
  // one, each is maximal, and they come out so that edges only lead back to
  // earlier ones.
  method FindSCCs(graph: Graph) returns (sccs: seq<set<Vertex>>)
    requires Closed(graph)
    ensures Components(graph, sccs)
    ensures forall v :: v in graph <==> InSome(sccs, v)
  {
    hide Components, Reaches, IsComponent;
    var ctx := new SCCContext(graph);
    var todo := graph.Keys;
    while todo != {}
      invariant ctx.graph == graph && fresh(ctx) && ctx.Valid({})
      invariant todo <= graph.Keys <= todo + ctx.indices.Keys
      decreases todo
    {
      var node :| node in todo;
      if node !in ctx.indices {
        ghost var d := ctx.View();
        ctx.TarjanDFS(node, {});
        assert Extends(d, ctx.View());
      }
      todo := todo - {node};
    }
    NothingOpen(graph, ctx.View());
    return ctx.sccs;
  }
}
