/**
 DetockService/DetockExecutor.cc: the executor object, whose threads update its
 fields in place.  Each method is one turn of a thread's loop and is proved to be
 a step of DetockPipeline.
 */
module DetockExecutor {
  import opened Digraphs
  import opened StableGraphs
  import opened DependencyLogs
  import opened DetockPipeline
  import GraphWorker

  datatype LocalLogSync = LocalLogSync(viewId: nat, shardId: nat, txnMetas: seq<TxnMeta>)

  // b is reached from a by steps.
  ghost predicate Steps(logs: seq<Log>, me: nat, a: Exec, b: Exec, trace: seq<Exec>) {
    && trace != [] && trace[0] == a && trace[|trace| - 1] == b
    && forall i, j :: 0 <= i && j == i + 1 && j < |trace| ==> Step(logs, me, trace[i], trace[j])
  }

  lemma SliceAt(log: Log, from: nat, len: nat, i: nat)
    requires from + len <= |log| && i < len
    ensures log[from + i] == log[from..from + len][i]
  {
  }

  lemma StepsStart(logs: seq<Log>, me: nat, a: Exec)
    ensures Steps(logs, me, a, a, [a])
  {
  }

  lemma StepsAppend(logs: seq<Log>, me: nat, a: Exec, b: Exec, trace: seq<Exec>, c: Exec)
    requires Steps(logs, me, a, b, trace) && Step(logs, me, b, c)
    ensures Steps(logs, me, a, c, trace + [c])
  {
    hide Step;
  }

  class DetockExecutor {
    const shardId: nat
    const viewId_: nat
    var prevTxns_: seq<map<int, Vertex>>
    var txnMetaData_: map<Vertex, TxnMetaData>
    var graphInfoQu_: seq<GraphInfo>
    var depGraph_: Graph
    var reverseGraph_: Graph
    var prunedVs_: set<Vertex>
    var completeVertices_: set<Vertex>
    var incompleteVertices_: set<Vertex>
    var graphSeqNoToProcess_: nat
    var lastProcessedGraphSeqNo_: nat
    var gQu_: seq<seq<GraphItem>>
    var execQu_: seq<seq<ExecItem>>
    var localEntryMap_: set<Vertex>
    var executed_: seq<Vertex>  // the calls to the state machine, in order

    ghost var state: Exec  // the value this object stands for, with its history

    ghost function OrderView(): Order
      reads this
    {
      Order(depGraph_, reverseGraph_, prunedVs_, completeVertices_, incompleteVertices_)
    }

    ghost predicate Valid()
      reads this
    {
      && state.parse == Parse(prevTxns_, txnMetaData_)
      && state.taken <= |state.stream| && graphInfoQu_ == state.stream[state.taken..]
      && state.order == OrderView()
      && graphSeqNoToProcess_ == |state.batches| + 1
      && gQu_ == state.gQu && execQu_ == state.execQu && |gQu_| == WORKERS && |execQu_| == WORKERS
      && lastProcessedGraphSeqNo_ == state.last && executed_ == state.executed
    }

    constructor (shardId: nat, shardNum: nat, viewId: nat)
      ensures Valid() && state == Init(shardNum)
      ensures this.shardId == shardId && viewId_ == viewId
    {
      this.shardId, viewId_ := shardId, viewId;
      prevTxns_, txnMetaData_, graphInfoQu_ := seq(shardNum, _ => map[]), map[], [];
      depGraph_, reverseGraph_, prunedVs_ := map[], map[], {};
      completeVertices_, incompleteVertices_ := {}, {};
      graphSeqNoToProcess_, lastProcessedGraphSeqNo_ := 1, 0;
      gQu_, execQu_ := seq(WORKERS, _ => []), seq(WORKERS, _ => []);
      localEntryMap_, executed_ := {}, [];
      state := Init(shardNum);
    }

    // ---------- ParseDepTd ----------

    // One transaction of a sync message.
    method ParseMeta(shard: nat, meta: TxnMeta, ghost logs: seq<Log>)
      requires Valid()
      requires shard < |logs| && shard < |state.n| && shard < |prevTxns_|
      requires state.n[shard] < |logs[shard]| && logs[shard][state.n[shard]] == meta
      modifies this`prevTxns_, this`txnMetaData_, this`graphInfoQu_, this`state
      ensures Valid() && ParseStep(logs, shardId, old(state), shard, state)
    {
      hide ParseTxn;
      ghost var e := state;
      ghost var (p, out) := ParseTxn(e.parse, shardId, shard, meta);
      if shardId in meta.shardIds {
        ParseInvolved(shard, meta);
      } else {
        SkipShape(e.parse, shardId, shard, meta);
      }
      LongerStream(e.stream, e.taken, out);
      state := e.(parse := p, n := e.n[shard := e.n[shard] + 1], stream := e.stream + out);
    }

    // The edges and the bookkeeping of a transaction that involves this shard.
    method ParseInvolved(shard: nat, meta: TxnMeta)
      requires shard < |prevTxns_| && shardId in meta.shardIds
      modifies this`prevTxns_, this`txnMetaData_, this`graphInfoQu_
      ensures var (p, out) := ParseTxn(Parse(old(prevTxns_), old(txnMetaData_)), shardId, shard, meta);
        Parse(prevTxns_, txnMetaData_) == p && graphInfoQu_ == old(graphInfoQu_) + out
    {
      ghost var edges := EnqueueEdges(prevTxns_[shard], meta);
      prevTxns_ := prevTxns_[shard := prevTxns_[shard] + map k | k in meta.localKeys :: meta.txnKey];
      var d := if meta.txnKey in txnMetaData_ then txnMetaData_[meta.txnKey] else TxnMetaData(set x | x in meta.shardIds, {});
      d := d.(collected := d.collected + {shard});
      txnMetaData_ := txnMetaData_[meta.txnKey := d];
      if d.IsComplete() {
        graphInfoQu_ := graphInfoQu_ + [Complete(meta.txnKey)];
        EraseUpdated(old(txnMetaData_), meta.txnKey, d);
        txnMetaData_ := txnMetaData_ - {meta.txnKey};
        assert graphInfoQu_ == old(graphInfoQu_) + (edges + [Complete(meta.txnKey)]);
      }
    }

    // The loop that enqueues an edge for every key used before.
    method EnqueueEdges(prev: map<int, Vertex>, meta: TxnMeta) returns (ghost out: seq<GraphInfo>)
      modifies this`graphInfoQu_
      ensures out == EdgesTo(prev, meta.localKeys, meta.txnKey)
      ensures graphInfoQu_ == old(graphInfoQu_) + out
    {
      out := [];
      var i: nat := 0;
      while i < |meta.localKeys|
        invariant i <= |meta.localKeys|
        invariant out == EdgesTo(prev, meta.localKeys[..i], meta.txnKey)
        invariant graphInfoQu_ == old(graphInfoQu_) + out
      {
        var k := meta.localKeys[i];
        assert meta.localKeys[..i + 1][..i] == meta.localKeys[..i];
        if k in prev {
          graphInfoQu_ := graphInfoQu_ + [Edge(prev[k], meta.txnKey)];
          out := out + [Edge(prev[k], meta.txnKey)];
        }
        i := i + 1;
      }
      assert meta.localKeys[..i] == meta.localKeys;
    }

    // One sync message, a contiguous piece of its shard's log.
    method ParseSync(sync: LocalLogSync, ghost logs: seq<Log>) returns (ghost trace: seq<Exec>)
      requires Valid()
      requires sync.shardId < |logs| && sync.shardId < |state.n| && sync.shardId < |prevTxns_|
      requires sync.viewId == viewId_ ==> state.n[sync.shardId] + |sync.txnMetas| <= |logs[sync.shardId]|
      requires sync.viewId == viewId_ ==>
                 logs[sync.shardId][state.n[sync.shardId]..state.n[sync.shardId] + |sync.txnMetas|] == sync.txnMetas
      modifies this`prevTxns_, this`txnMetaData_, this`graphInfoQu_, this`state
      ensures Valid() && Steps(logs, shardId, old(state), state, trace)
      ensures state.n == if sync.viewId == viewId_ then old(state.n)[sync.shardId := old(state.n)[sync.shardId] + |sync.txnMetas|] else old(state.n)
    {
      hide Step, ParseStep, Steps;
      StepsStart(logs, shardId, state);
      trace := [state];
      if sync.viewId != viewId_ {
        return;
      }
      var s := sync.shardId;
      for i: nat := 0 to |sync.txnMetas|
        invariant Valid() && Steps(logs, shardId, old(state), state, trace)
        invariant |prevTxns_| == |old(prevTxns_)|
        invariant state.n == old(state.n)[s := old(state.n)[s] + i]
      {
        ghost var before := state;
        SliceAt(logs[s], old(state.n)[s], |sync.txnMetas|, i);
        ParseMeta(s, sync.txnMetas[i], logs);
        ParseStepAdvances(logs, shardId, before, s, state);
        StepsAppend(logs, shardId, old(state), before, trace, state);
        trace := trace + [state];
      }
    }

    // ---------- OrderTd ----------

    // One turn of the loop that drains the graph-info queue.
    method TakeGraphInfo()
      requires Valid() && graphInfoQu_ != []
      modifies this`graphInfoQu_, this`depGraph_, this`reverseGraph_, this`completeVertices_, this`incompleteVertices_, this`state
      ensures Valid() && IntakeStep(old(state), state)
    {
      hide Intake, Recorded;
      var info := graphInfoQu_[0];
      graphInfoQu_ := graphInfoQu_[1..];
      RecordInfo(info);
      state := state.(taken := state.taken + 1, order := Intake(state.order, info), all := Recorded(state.all, info));
    }

    method RecordInfo(info: GraphInfo)
      modifies this`depGraph_, this`reverseGraph_, this`completeVertices_, this`incompleteVertices_
      ensures OrderView() == Intake(old(OrderView()), info)
    {
      match info {
        case Edge(u, v) =>
          if u !in prunedVs_ {
            depGraph_ := Insert(depGraph_, u, v);
            reverseGraph_ := Insert(reverseGraph_, v, u);
            incompleteVertices_ := incompleteVertices_ + {u};
            incompleteVertices_ := incompleteVertices_ + {v};
            assert incompleteVertices_ == old(incompleteVertices_) + {u, v};
          } else {
            depGraph_ := Touch(depGraph_, v);
            incompleteVertices_ := incompleteVertices_ + {v};
          }
        case Complete(v) =>
          depGraph_ := Touch(depGraph_, v);
          completeVertices_ := completeVertices_ + {v};
      }
    }

    // Keeps the vertices that are still incomplete and queues them for the search.
    method Purify() returns (queue: seq<Vertex>)
      modifies this`incompleteVertices_
      ensures incompleteVertices_ == old(incompleteVertices_) - completeVertices_
      ensures forall v :: v in queue <==> v in incompleteVertices_
    {
      queue := [];
      var purified := {};
      var todo := incompleteVertices_;
      while todo != {}
        invariant todo <= incompleteVertices_
        invariant purified == incompleteVertices_ - todo - completeVertices_
        invariant forall v :: v in queue <==> v in purified
        decreases todo
      {
        var txnKey :| txnKey in todo;
        if txnKey !in completeVertices_ {
          purified := purified + {txnKey};
          queue := queue + [txnKey];
        }
        todo := todo - {txnKey};
      }
      incompleteVertices_ := purified;
    }

    // The breadth-first search from the incomplete vertices.
    method FindUnstable(start: seq<Vertex>, ghost from: set<Vertex>) returns (unstable: set<Vertex>)
      requires forall v :: v in from <==> v in start
      modifies this`depGraph_
      ensures IsUnstable(old(depGraph_), from, unstable)
      ensures depGraph_ == Grown(old(depGraph_), unstable)
    {
      hide ReachedFrom, Succ, Grown, Touch;
      var queue := start;
      var visited := {};
      ghost var dep := depGraph_;
      ghost var universe := Targets(dep) + from;
      SearchStart(dep, from);
      while queue != []
        invariant visited <= universe && forall v :: v in queue ==> v in universe
        invariant forall v :: v in from ==> v in visited || v in queue
        invariant forall v, w :: v in visited && Arc(dep, v, w) ==> w in visited || w in queue
        invariant forall v :: v in visited || v in queue ==> ReachedFrom(dep, from, v)
        invariant depGraph_ == Grown(dep, visited)
        decreases universe - visited, |queue|
      {
        var txnKey := queue[0];
        assert queue == [txnKey] + queue[1..];
        queue := queue[1..];
        if txnKey !in visited {
          GrownTouch(dep, visited, txnKey);
          SearchStep(dep, from, txnKey);
          visited := visited + {txnKey};
          depGraph_ := Touch(depGraph_, txnKey);
          queue := PushUnvisited(depGraph_[txnKey], visited, queue);
        }
      }
      unstable := visited;
      SearchEnd(dep, from, unstable);
    }

    // The loop over the successors of a visited vertex.
    method PushUnvisited(successors: set<Vertex>, visited: set<Vertex>, start: seq<Vertex>) returns (queue: seq<Vertex>)
      ensures forall v :: v in queue <==> v in start || (v in successors && v !in visited)
    {
      queue := start;
      var todo := successors;
      while todo != {}
        invariant todo <= successors
        invariant forall v :: v in queue <==> v in start || (v in successors && v !in todo && v !in visited)
        decreases todo
      {
        var depNode :| depNode in todo;
        if depNode !in visited {
          queue := queue + [depNode];
        }
        todo := todo - {depNode};
      }
    }

    // Copies out the complete vertices that nothing unstable precedes.
    method CutStable(unstable: set<Vertex>) returns (stableGraph: Graph, stableVertices: set<Vertex>)
      ensures stableGraph == StablePart(depGraph_, completeVertices_, unstable)
      ensures stableVertices == stableGraph.Keys + Targets(stableGraph)
    {
      stableGraph, stableVertices := map[], {};
      var todo := depGraph_.Keys;
      while todo != {}
        invariant todo <= depGraph_.Keys
        invariant forall v :: v in stableGraph <==> v in depGraph_ && v !in todo && v in completeVertices_ && v !in unstable
        invariant forall v :: v in stableGraph ==> stableGraph[v] == StableOf(v, unstable)
        invariant stableVertices == stableGraph.Keys + Targets(stableGraph)
        decreases todo
      {
        var from :| from in todo;
        if from in completeVertices_ && from !in unstable {
          var tos := StableOf(from, unstable);
          TargetsAdd(stableGraph, from, tos);
          stableVertices := stableVertices + {from} + tos;
          stableGraph := stableGraph[from := tos];
        }
        todo := todo - {from};
      }
    }

    // The inner loop: the successors that are themselves stable.
    function StableOf(from: Vertex, unstable: set<Vertex>): set<Vertex>
      requires from in depGraph_
      reads this
    {
      set to | to in depGraph_[from] && to in completeVertices_ && to !in unstable
    }

    // Removes the emitted vertices from the kept graph.
    method PruneStable(stable: set<Vertex>)
      modifies this`depGraph_, this`reverseGraph_, this`prunedVs_
      ensures depGraph_ == Prune(old(depGraph_), old(reverseGraph_), stable)
      ensures reverseGraph_ == Grown(old(reverseGraph_), stable)
      ensures prunedVs_ == old(prunedVs_) + stable
    {
      hide Prune, Grown, Touch, EraseTarget;
      var stableVertices := stable;
      ghost var dep, rev, done := depGraph_, reverseGraph_, {};
      NothingToPrune(dep, rev);
      while stableVertices != {}
        invariant done !! stableVertices && done + stableVertices == stable
        invariant depGraph_ == Prune(dep, rev, done)
        invariant reverseGraph_ == Grown(rev, done)
        invariant prunedVs_ == old(prunedVs_) + done
        decreases stableVertices
      {
        var stableV :| stableV in stableVertices;
        GrownTouch(rev, done, stableV);
        PruneMore(dep, rev, done, stableV);
        reverseGraph_ := Touch(reverseGraph_, stableV);
        depGraph_ := EraseTarget(depGraph_ - {stableV}, reverseGraph_[stableV], stableV);
        prunedVs_ := prunedVs_ + {stableV};
        stableVertices, done := stableVertices - {stableV}, done + {stableV};
      }
    }

    // One pass of the ordering thread after it has drained its queue.
    method OrderPass()
      requires Valid() && GraphOk(state.order, state.all)
      modifies this`depGraph_, this`reverseGraph_, this`prunedVs_, this`incompleteVertices_, this`gQu_, this`graphSeqNoToProcess_, this`state
      ensures Valid() && PassStep(old(state), state)
    {
      hide GraphOk, Pass, HandOut;
      ghost var e := state;
      var stableGraph := FindStable(e.order, e.all);
      if |stableGraph| > 0 {
        HandOutStable(stableGraph);
      }
      HandOutShape(e, OrderView(), stableGraph);
      state := HandOut(e, OrderView(), stableGraph);
    }

    // The body of a pass: what it lets out, and the graph it keeps.
    method FindStable(ghost o: Order, ghost all: Graph) returns (stableGraph: Graph)
      requires o == OrderView() && GraphOk(o, all)
      modifies this`depGraph_, this`reverseGraph_, this`prunedVs_, this`incompleteVertices_
      ensures Pass(o, stableGraph, OrderView())
    {
      hide GraphOk, IsUnstable, Pass, StablePart, Prune, Grown, Targets;
      var queue := Purify();
      ghost var incomplete := incompleteVertices_;
      var unstable := FindUnstable(queue, incomplete);
      var stableVertices;
      stableGraph, stableVertices := CutStable(unstable);
      StableTargets(o, all, unstable);
      PruneIfStable(stableGraph, stableVertices);
      PassIntro(o, unstable, stableGraph, OrderView());
    }

    method PruneIfStable(stableGraph: Graph, stableVertices: set<Vertex>)
      requires stableVertices == stableGraph.Keys + Targets(stableGraph) && Targets(stableGraph) <= stableGraph.Keys
      modifies this`depGraph_, this`reverseGraph_, this`prunedVs_
      ensures depGraph_ == Prune(old(depGraph_), old(reverseGraph_), stableGraph.Keys)
      ensures reverseGraph_ == Grown(old(reverseGraph_), stableGraph.Keys)
      ensures prunedVs_ == old(prunedVs_) + stableGraph.Keys
    {
      hide Prune, Grown, Targets;
      assert stableVertices == stableGraph.Keys;
      if |stableGraph| > 0 {
        PruneStable(stableVertices);
      } else {
        NothingToPrune(depGraph_, reverseGraph_);
        assert stableVertices == {} && prunedVs_ == old(prunedVs_) + stableVertices;
      }
    }

    // Gives the stable graph to the next worker.
    method HandOutStable(stableGraph: Graph)
      requires |gQu_| == WORKERS
      modifies this`gQu_, this`graphSeqNoToProcess_
      ensures gQu_ == PushBack(old(gQu_), old(graphSeqNoToProcess_) % WORKERS, GraphItem(old(graphSeqNoToProcess_), stableGraph))
      ensures graphSeqNoToProcess_ == old(graphSeqNoToProcess_) + 1
    {
      var w := graphSeqNoToProcess_ % |gQu_|;
      gQu_ := PushBack(gQu_, w, GraphItem(graphSeqNoToProcess_, stableGraph));
      graphSeqNoToProcess_ := graphSeqNoToProcess_ + 1;
    }

    // ---------- GraphTd and ExecuteTd ----------

    method OrderGraph(idx: nat)
      requires Valid() && QueuesOk(state) && BatchesOk(state.all, state.batches)
      requires idx < WORKERS && gQu_[idx] != []
      modifies this`gQu_, this`execQu_, this`state
      ensures Valid() && GraphStep(old(state), idx, state)
    {
      hide GraphWorker.Emission, Pending;
      var info := gQu_[idx][0];
      assert WorkerOk(state.batches, state.last, idx, gQu_[idx], execQu_[idx]);
      assert BatchClosed(state.all, state.batches, info.seqNo - 1);
      gQu_ := PopFront(gQu_, idx);
      var txnKeys := GraphWorker.OrderStableGraph(info.graph);
      execQu_ := PushBack(execQu_, idx, ExecItem(info.seqNo, txnKeys));
      state := Worked(state, idx, txnKeys);
    }

    // One turn of the executing thread, once the queue it polls is not empty.
    method ExecuteBatch()
      requires Valid() && execQu_[(lastProcessedGraphSeqNo_ + 1) % WORKERS] != []
      modifies this`execQu_, this`executed_, this`lastProcessedGraphSeqNo_, this`state
      ensures Valid() && ExecuteStep(old(state), localEntryMap_, state)
      ensures |old(executed_)| <= |executed_| && executed_[..|old(executed_)|] == old(executed_)
      ensures forall v :: v in executed_[|old(executed_)|..] <==> v in localEntryMap_ && v in old(execQu_[(lastProcessedGraphSeqNo_ + 1) % WORKERS])[0].keys
    {
      hide Known, Places, PopFront;
      var quIdx := (lastProcessedGraphSeqNo_ + 1) % |execQu_|;
      var txnKeys := execQu_[quIdx][0].keys;
      execQu_ := PopFront(execQu_, quIdx);
      ExecuteKnown(txnKeys);
      lastProcessedGraphSeqNo_ := lastProcessedGraphSeqNo_ + 1;
      state := Ran(state, localEntryMap_);
      KnownAreExecuted(old(state), localEntryMap_, state);
    }

    // The loop over a batch: a transaction whose request has not arrived here is skipped.
    method ExecuteKnown(txnKeys: seq<Vertex>)
      modifies this`executed_
      ensures executed_ == old(executed_) + Known(txnKeys, localEntryMap_)
    {
      var i: nat := 0;
      while i < |txnKeys|
        invariant i <= |txnKeys|
        invariant executed_ == old(executed_) + Known(txnKeys[..i], localEntryMap_)
      {
        assert txnKeys[..i + 1][..i] == txnKeys[..i];
        if txnKeys[i] in localEntryMap_ {
          executed_ := executed_ + [txnKeys[i]];
        }
        i := i + 1;
      }
      assert txnKeys[..i] == txnKeys;
    }
  }

  lemma HandOutShape(e: Exec, o: Order, stable: Graph)
    requires |e.gQu| == WORKERS
    ensures var e' := HandOut(e, o, stable);
      && e'.parse == e.parse && e'.stream == e.stream && e'.taken == e.taken && e'.order == o
      && e'.execQu == e.execQu && e'.last == e.last && e'.executed == e.executed && |e'.gQu| == WORKERS
      && |e'.batches| == |e.batches| + (if |stable| > 0 then 1 else 0)
      && e'.gQu == if |stable| > 0 then PushBack(e.gQu, (|e.batches| + 1) % WORKERS, GraphItem(|e.batches| + 1, stable)) else e.gQu
    ensures Pass(e.order, stable, o) ==> PassStep(e, HandOut(e, o, stable))
  {
    hide Pass, PushBack;
  }

  lemma PassIntro(o: Order, unstable: set<Vertex>, stable: Graph, o': Order)
    requires IsUnstable(o.dep, o.incomplete - o.complete, unstable)
    requires stable == StablePart(Grown(o.dep, unstable), o.complete, unstable)
    requires o' == Order(
                     Prune(Grown(o.dep, unstable), o.rev, stable.Keys), Grown(o.rev, stable.Keys),
                     o.pruned + stable.Keys, o.complete, o.incomplete - o.complete)
    ensures Pass(o, stable, o')
  {
    hide IsUnstable, StablePart, Prune, Grown;
  }

  lemma LongerStream(stream: seq<GraphInfo>, taken: nat, out: seq<GraphInfo>)
    requires taken <= |stream|
    ensures (stream + out)[taken..] == stream[taken..] + out && stream[taken..] + [] == stream[taken..]
  {
  }

  lemma SkipShape(p: Parse, me: nat, s: nat, m: TxnMeta)
    requires s < |p.prev| && me !in m.shardIds
    ensures ParseTxn(p, me, s, m) == (p, [])
  {
  }

  lemma EraseUpdated<K, V>(m: map<K, V>, k: K, v: V)
    ensures m[k := v] - {k} == m - {k}
  {
  }

  lemma ParseStepAdvances(logs: seq<Log>, me: nat, e: Exec, s: nat, e': Exec)
    requires ParseStep(logs, me, e, s, e')
    ensures Step(logs, me, e, e') && e'.n == e.n[s := e.n[s] + 1] && |e'.parse.prev| == |e.parse.prev|
  {
  }

  function Targets(g: Graph): set<Vertex> {
    set u, v | u in g && v in g[u] :: v
  }

  lemma TargetsAdd(g: Graph, u: Vertex, vs: set<Vertex>)
    requires u !in g
    ensures Targets(g[u := vs]) == Targets(g) + vs
  {
    var h := g[u := vs];
    forall v | v in vs
      ensures v in Targets(h)
    {
      assert v in h[u];
    }
    forall v | v in Targets(g)
      ensures v in Targets(h)
    {
      var x :| x in g && v in g[x];
      assert v in h[x];
    }
  }

  ghost predicate ReachedFrom(dep: Graph, from: set<Vertex>, v: Vertex) {
    exists i :: i in from && Reaches(dep, i, v)
  }

  lemma SearchStart(dep: Graph, from: set<Vertex>)
    ensures forall v :: v in from ==> ReachedFrom(dep, from, v)
    ensures Grown(dep, {}) == dep
  {
    forall v | v in from
      ensures ReachedFrom(dep, from, v)
    {
      ReachSelf(dep, v);
    }
  }

  // A visited vertex's successors are reached as well.
  lemma SearchStep(dep: Graph, from: set<Vertex>, v: Vertex)
    requires ReachedFrom(dep, from, v)
    ensures forall w :: w in Succ(dep, v) ==> w in Targets(dep) && ReachedFrom(dep, from, w)
    ensures forall w :: Arc(dep, v, w) <==> w in Succ(dep, v)
  {
    hide Reaches;
    var i :| i in from && Reaches(dep, i, v);
    forall w | w in Succ(dep, v)
      ensures Reaches(dep, i, w)
    {
      ReachEdge(dep, v, w);
      ReachTrans(dep, i, v, w);
    }
  }

  lemma GrownTouch(dep: Graph, visited: set<Vertex>, v: Vertex)
    ensures Touch(Grown(dep, visited), v) == Grown(dep, visited + {v})
    ensures Touch(Grown(dep, visited), v).Keys >= {v} && Touch(Grown(dep, visited), v)[v] == Succ(dep, v)
  {
  }

  lemma SearchEnd(dep: Graph, from: set<Vertex>, visited: set<Vertex>)
    requires from <= visited && forall v :: v in visited ==> ReachedFrom(dep, from, v)
    requires forall v, w :: v in visited && Arc(dep, v, w) ==> w in visited
    ensures IsUnstable(dep, from, visited)
  {
  }

  // depGraph_[from].erase(v) for every kept vertex of froms.
  function EraseTarget(dep: Graph, froms: set<Vertex>, v: Vertex): Graph {
    map u | u in dep :: if u in froms then dep[u] - {v} else dep[u]
  }

  lemma PruneMore(dep: Graph, rev: Graph, s: set<Vertex>, v: Vertex)
    requires v !in s
    ensures EraseTarget(Prune(dep, rev, s) - {v}, Succ(rev, v), v) == Prune(dep, rev, s + {v})
  {
    var a, b := EraseTarget(Prune(dep, rev, s) - {v}, Succ(rev, v), v), Prune(dep, rev, s + {v});
    forall u | u in a
      ensures a[u] == b[u]
    {
    }
  }

  lemma NothingToPrune(dep: Graph, rev: Graph)
    ensures Prune(dep, rev, {}) == dep && Grown(rev, {}) == rev
  {
    forall u | u in dep
      ensures Prune(dep, rev, {})[u] == dep[u]
    {
    }
  }

  // The stable successors are themselves keys of the stable graph.
  lemma StableTargets(o: Order, all: Graph, unstable: set<Vertex>)
    requires GraphOk(o, all) && IsUnstable(o.dep, o.incomplete - o.complete, unstable)
    ensures Targets(StablePart(Grown(o.dep, unstable), o.complete, unstable)) <= StablePart(Grown(o.dep, unstable), o.complete, unstable).Keys
  {
    hide IsUnstable, GraphOk;
    StableShape(o, all, unstable);
    var stable := StablePart(Grown(o.dep, unstable), o.complete, unstable);
    forall u, v | u in stable && v in stable[u]
      ensures v in stable
    {
      assert Arc(stable, u, v);
    }
  }
}
