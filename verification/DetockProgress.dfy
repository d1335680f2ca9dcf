/**
 Progress of the Detock pipeline: once the logs are parsed and the stream is taken,
 one pass hands out exactly the transactions whose dependencies, direct and
 indirect, are listed by all the shards they involve; and once the queues between
 the threads are empty, exactly those have been executed, except for the ones whose
 request has not arrived.
 */
module DetockProgress {
  import opened Collections
  import opened Digraphs
  import opened StableGraphs
  import opened DependencyLogs
  import opened GraphWorker
  import opened DetockPipeline

  // A transaction of this server that all its shards list.
  ghost predicate Listed(logs: seq<Log>, shards: map<Vertex, set<nat>>, me: nat, t: Vertex) {
    t in shards && me in shards[t] && ListedByAll(logs, shards[t], t)
  }

  // Nothing it depends on, itself included, is still missing from a log.
  ghost predicate Settled(logs: seq<Log>, shards: map<Vertex, set<nat>>, me: nat, t: Vertex) {
    forall u :: Reaches(Dependencies(logs, me), u, t) ==> Listed(logs, shards, me, u)
  }

  // The parsing thread has reached the ends of the logs, the ordering thread the end
  // of the stream.
  ghost predicate AllTaken(logs: seq<Log>, e: Exec) {
    Parsed(logs, e.n) && e.taken == |e.stream|
  }

  // Complete means listed.
  lemma CompleteIffListed(logs: seq<Log>, shards: map<Vertex, set<nat>>, me: nat, e: Exec, v: Vertex)
    requires WellFormed(logs, shards) && ExecInv(logs, shards, me, e) && Parsed(logs, e.n)
    ensures v in e.order.complete ==> Listed(logs, shards, me, v)
    ensures AllTaken(logs, e) ==> (v in e.order.complete <==> Listed(logs, shards, me, v))
  {
    hide WellFormed, ParseInv, OrderInv, QueuesOk, ExecutedOk, AllRun, Parsed, ListedByAll;
    CompletesIffListed(logs, shards, me, e.n, e.parse, e.stream, v);
    assert AllTaken(logs, e) ==> e.stream[..e.taken] == e.stream;
  }

  // What has been handed out is settled.
  lemma EmittedIsSettled(logs: seq<Log>, shards: map<Vertex, set<nat>>, me: nat, e: Exec, v: Vertex)
    requires WellFormed(logs, shards) && ExecInv(logs, shards, me, e) && Parsed(logs, e.n) && v in e.order.pruned
    ensures Settled(logs, shards, me, v)
  {
    hide WellFormed, ExecInv, Parsed, Reaches, Dependencies, Listed;
    forall u | Reaches(Dependencies(logs, me), u, v)
      ensures Listed(logs, shards, me, u)
    {
      RecordedPaths(logs, shards, me, e, u, v);
      EmittedBefore(logs, shards, me, e, u, v);
      CompleteIffListed(logs, shards, me, e, u);
    }
  }

  lemma EmittedBefore(logs: seq<Log>, shards: map<Vertex, set<nat>>, me: nat, e: Exec, u: Vertex, v: Vertex)
    requires ExecInv(logs, shards, me, e) && v in e.order.pruned && Reaches(e.all, u, v)
    ensures u in e.order.pruned && u in e.order.complete
  {
    hide ParseInv, TakenOk, QueuesOk, ExecutedOk, AllRun, Reaches, BatchClosed;
    var j: nat :| j < |e.batches| && v in e.batches[j];
    PathBatches(e.all, e.batches, u, v, j);
    var i :| 0 <= i < j + 1 && u in e.batches[i];
  }

  // A kept path is a path of dependencies.
  lemma KeptPath(logs: seq<Log>, shards: map<Vertex, set<nat>>, me: nat, e: Exec, u: Vertex, v: Vertex)
    requires ExecInv(logs, shards, me, e) && Reaches(e.order.dep, u, v)
    ensures Reaches(Dependencies(logs, me), u, v)
  {
    hide Reaches, Dependencies, QueuesOk, ExecutedOk, AllRun, PrevOk, MetaOk, EdgesOk, BatchesOk, DepEdge;
    var g := Dependencies(logs, me);
    DependencyArcs(logs, me);
    forall a, b | b in Succ(e.order.dep, a)
      ensures b in Succ(g, a)
    {
      assert Arc(e.order.dep, a, b);
      var i :| 0 <= i < e.taken && e.stream[i] == Edge(a, b);
      assert TimelyAt(logs, me, e.stream, i);
      assert Arc(g, a, b);
    }
    ReachMonotone(e.order.dep, g, u, v);
  }

  // A settled transaction is not behind anything incomplete.
  lemma SettledIsStable(logs: seq<Log>, shards: map<Vertex, set<nat>>, me: nat, e: Exec, unstable: set<Vertex>, v: Vertex)
    requires WellFormed(logs, shards) && ExecInv(logs, shards, me, e) && AllTaken(logs, e)
    requires IsUnstable(e.order.dep, e.order.incomplete - e.order.complete, unstable)
    requires Settled(logs, shards, me, v)
    ensures v in e.order.complete && v !in unstable
  {
    hide WellFormed, ExecInv, AllTaken, Reaches, Dependencies, Listed, Forward;
    ReachSelf(Dependencies(logs, me), v);
    TakenIsParsed(logs, e);
    CompleteIffListed(logs, shards, me, e, v);
    if v in unstable {
      var i :| i in e.order.incomplete - e.order.complete && Reaches(e.order.dep, i, v);
      KeptPath(logs, shards, me, e, i, v);
      CompleteIffListed(logs, shards, me, e, i);
      assert false;
    }
  }

  lemma TakenIsParsed(logs: seq<Log>, e: Exec)
    requires AllTaken(logs, e)
    ensures Parsed(logs, e.n)
  {
  }

  // Whatever is complete, kept, and not behind anything incomplete leaves with the pass.
  lemma StableLeaves(o: Order, all: Graph, stable: Graph, o': Order, v: Vertex)
    requires GraphOk(o, all) && Pass(o, stable, o') && v in o.complete
    requires forall unstable :: IsUnstable(o.dep, o.incomplete - o.complete, unstable) ==> v !in unstable
    ensures v in o'.pruned
  {
    hide IsUnstable, Prune;
    var unstable :|
      && IsUnstable(o.dep, o.incomplete - o.complete, unstable)
      && stable == StablePart(Grown(o.dep, unstable), o.complete, unstable)
      && o' == Order(
                 Prune(Grown(o.dep, unstable), o.rev, stable.Keys), Grown(o.rev, stable.Keys),
                 o.pruned + stable.Keys, o.complete, o.incomplete - o.complete);
    if v !in o.pruned {
      assert v in Grown(o.dep, unstable);
    }
  }

  // When everything has been parsed and taken, one pass hands out what is settled
  // and nothing else.
  lemma PassEmitsSettled(logs: seq<Log>, shards: map<Vertex, set<nat>>, me: nat, e: Exec, e': Exec, v: Vertex)
    requires WellFormed(logs, shards) && ExecInv(logs, shards, me, e) && AllTaken(logs, e) && PassStep(e, e')
    ensures v in e'.order.pruned <==> Settled(logs, shards, me, v)
  {
    hide WellFormed, ExecInv, AllTaken, Settled, IsUnstable, Pass, GraphOk;
    var stable, o :| Pass(e.order, stable, o) && e' == HandOut(e, o, stable);
    if Settled(logs, shards, me, v) {
      forall unstable | IsUnstable(e.order.dep, e.order.incomplete - e.order.complete, unstable)
        ensures v !in unstable
      {
        SettledIsStable(logs, shards, me, e, unstable, v);
      }
      UnstableExists(e.order, stable, o);
      var unstable :| IsUnstable(e.order.dep, e.order.incomplete - e.order.complete, unstable);
      SettledIsStable(logs, shards, me, e, unstable, v);
      InvGraphOk(logs, shards, me, e);
      StableLeaves(e.order, e.all, stable, o, v);
    }
    if v in e'.order.pruned {
      PassStepKeeps(logs, shards, me, e, e');
      TakenIsParsed(logs, e);
      EmittedIsSettled(logs, shards, me, e', v);
    }
  }

  lemma UnstableExists(o: Order, stable: Graph, o': Order)
    requires Pass(o, stable, o')
    ensures exists unstable :: IsUnstable(o.dep, o.incomplete - o.complete, unstable)
  {
    hide IsUnstable;
  }

  lemma InvGraphOk(logs: seq<Log>, shards: map<Vertex, set<nat>>, me: nat, e: Exec)
    requires ExecInv(logs, shards, me, e)
    ensures GraphOk(e.order, e.all)
  {
    hide GraphOk, ParseInv, TakenOk, QueuesOk, ExecutedOk, AllRun, BatchesOk;
  }

  // ---------- the queues run dry ----------

  ghost predicate QueuesEmpty(e: Exec) {
    && (forall w :: 0 <= w < |e.gQu| ==> e.gQu[w] == [])
    && (forall w :: 0 <= w < |e.execQu| ==> e.execQu[w] == [])
  }

  // With empty queues every batch has been run.
  lemma EmptyQueuesAllRun(e: Exec)
    requires QueuesOk(e) && QueuesEmpty(e)
    ensures e.last == |e.batches|
  {
    hide Emission;
    var w := (e.last + 1) % WORKERS;
    assert WorkerOk(e.batches, e.last, w, e.gQu[w], e.execQu[w]);
    assert ExecNos(e.execQu[w]) + GraphNos(e.gQu[w]) == [];
    PendingHead(e.last, |e.batches|, w);
  }

  lemma EmittedIffRun(logs: seq<Log>, shards: map<Vertex, set<nat>>, me: nat, e: Exec, v: Vertex)
    requires ExecInv(logs, shards, me, e)
    ensures v in e.executed || v in e.skipped ==> v in e.order.pruned
    ensures QueuesEmpty(e) ==> (v in e.executed || v in e.skipped <==> v in e.order.pruned)
  {
    hide ParseInv, TakenOk, GraphOk, BatchesOk, ExecutedOk, WorkerOk, QueuesEmpty;
    if v in e.executed || v in e.skipped {
      var b :| 0 <= b < |e.orders| && v in e.orders[b];
      assert v in e.batches[b];
    }
    if QueuesEmpty(e) && v in e.order.pruned {
      EmptyQueuesAllRun(e);
      var b :| 0 <= b < |e.batches| && v in e.batches[b];
      assert v in e.orders[b];
    }
  }

  // ---------- over whole runs ----------

  // Nothing parsed or handed out is ever taken back.
  lemma StepGrows(logs: seq<Log>, me: nat, e: Exec, e': Exec)
    requires Step(logs, me, e, e')
    ensures e.order.pruned <= e'.order.pruned && (Parsed(logs, e.n) ==> Parsed(logs, e'.n))
  {
    hide ParseTxn, Prune, Grown, StablePart, IsUnstable, Emission, Known, Places;
    if s :| ParseStep(logs, me, e, s, e') {
    } else if IntakeStep(e, e') {
    } else if PassStep(e, e') {
      var stable, o :| Pass(e.order, stable, o) && e' == HandOut(e, o, stable);
    } else if w :| GraphStep(e, w, e') {
    } else {
      var known :| ExecuteStep(e, known, e');
    }
  }

  lemma {:induction false} RunGrows(logs: seq<Log>, me: nat, run: seq<Exec>, i: nat, j: nat)
    requires Run(logs, me, run) && i <= j < |run|
    ensures run[i].order.pruned <= run[j].order.pruned && (Parsed(logs, run[i].n) ==> Parsed(logs, run[j].n))
    decreases j
  {
    hide Step, Parsed;
    if i < j {
      RunGrows(logs, me, run, i, j - 1);
      StepGrows(logs, me, run[j - 1], run[j]);
    }
  }

  // After a pass over everything, once the queues are empty, exactly the settled
  // transactions have been executed, or skipped because their request is not here.
  lemma SettledAreRun(logs: seq<Log>, shards: map<Vertex, set<nat>>, me: nat, run: seq<Exec>, i: nat, j: nat, v: Vertex)
    requires WellFormed(logs, shards) && Run(logs, me, run) && i + 1 <= j < |run|
    requires AllTaken(logs, run[i]) && PassStep(run[i], run[i + 1]) && QueuesEmpty(run[j])
    ensures v in run[j].executed || v in run[j].skipped <==> Settled(logs, shards, me, v)
  {
    hide WellFormed, ExecInv, Run, AllTaken, PassStep, Settled, QueuesEmpty, Parsed;
    RunInv(logs, shards, me, run, i);
    RunInv(logs, shards, me, run, j);
    TakenIsParsed(logs, run[i]);
    RunGrows(logs, me, run, i, j);
    RunGrows(logs, me, run, i + 1, j);
    PassEmitsSettled(logs, shards, me, run[i], run[i + 1], v);
    EmittedIffRun(logs, shards, me, run[j], v);
    if v in run[j].order.pruned {
      EmittedIsSettled(logs, shards, me, run[j], v);
    }
  }

  // Nothing but a turn of the executing thread skips a transaction.
  lemma OthersSkipNone(logs: seq<Log>, me: nat, e: Exec, e': Exec)
    requires Step(logs, me, e, e')
    ensures (exists known :: ExecuteStep(e, known, e')) || e'.skipped == e.skipped
  {
    hide ParseTxn, Pass, Emission, Known, Places;
    if s :| ParseStep(logs, me, e, s, e') {
    } else if IntakeStep(e, e') {
    } else if PassStep(e, e') {
      var stable, o :| Pass(e.order, stable, o) && e' == HandOut(e, o, stable);
    } else if w :| GraphStep(e, w, e') {
    } else {
      var known :| ExecuteStep(e, known, e');
    }
  }

  lemma StepSkips(logs: seq<Log>, me: nat, e: Exec, e': Exec, v: Vertex)
    requires Step(logs, me, e, e') && v in e'.skipped && v !in e.skipped
    ensures exists known :: ExecuteStep(e, known, e') && InNextBatch(e, v) && v !in known
  {
    hide Step, ExecuteStep, InNextBatch;
    OthersSkipNone(logs, me, e, e');
    var known :| ExecuteStep(e, known, e');
    KnownAreExecuted(e, known, e');
  }

  // In step i the executing thread comes to v and does not know its request.
  ghost predicate Misses(run: seq<Exec>, i: nat, v: Vertex) {
    && i + 1 < |run| && InNextBatch(run[i], v)
    && exists known :: ExecuteStep(run[i], known, run[i + 1]) && v !in known
  }

  // What is skipped was not known when its batch was run.
  lemma {:induction false} SkippedWasUnknown(logs: seq<Log>, me: nat, run: seq<Exec>, j: nat, v: Vertex)
    requires Run(logs, me, run) && j < |run| && v in run[j].skipped
    ensures exists i: nat :: i < j && Misses(run, i, v)
    decreases j
  {
    hide Step, ExecuteStep, InNextBatch;
    if j > 0 {
      var i := j - 1;
      assert Step(logs, me, run[i], run[j]);
      if v in run[i].skipped {
        SkippedWasUnknown(logs, me, run, i, v);
      } else {
        StepSkips(logs, me, run[i], run[j], v);
        assert Misses(run, i, v);
      }
    }
  }

  // Whenever the executing thread comes to v, its request is there.
  ghost predicate RequestIsHere(run: seq<Exec>, v: Vertex) {
    forall i: nat :: i < |run| ==> !Misses(run, i, v)
  }

  // After a pass over everything, once the queues are empty, a transaction whose
  // request has come in time has been executed exactly if it is settled.
  lemma SettledAreExecuted(logs: seq<Log>, shards: map<Vertex, set<nat>>, me: nat, run: seq<Exec>, i: nat, j: nat, v: Vertex)
    requires WellFormed(logs, shards) && Run(logs, me, run) && i + 1 <= j < |run|
    requires AllTaken(logs, run[i]) && PassStep(run[i], run[i + 1]) && QueuesEmpty(run[j])
    requires RequestIsHere(run, v)
    ensures v in run[j].executed <==> Settled(logs, shards, me, v)
  {
    hide WellFormed, Run, AllTaken, PassStep, Settled, QueuesEmpty, Misses;
    SettledAreRun(logs, shards, me, run, i, j, v);
    if v in run[j].skipped {
      SkippedWasUnknown(logs, me, run, j, v);
      assert false;
    }
  }

  // Every transaction that some log lists is listed by all its shards.
  ghost predicate NoneMissing(logs: seq<Log>, shards: map<Vertex, set<nat>>) {
    forall t :: t in Txns(logs) && t in shards ==> ListedByAll(logs, shards[t], t)
  }

  // Dependencies are between transactions of this server.
  lemma DependencyIsMine(logs: seq<Log>, shards: map<Vertex, set<nat>>, me: nat, u: Vertex, v: Vertex)
    requires WellFormed(logs, shards) && DepEdge(logs, me, u, v)
    ensures u in Txns(logs) && u in shards && me in shards[u]
  {
    var s: nat, i: nat :| s < |logs| && LogEdge(logs[s], me, i, u, v);
    var k :| k in logs[s][i].localKeys && LastUser(logs[s], i, me, k) == Some(u);
    LastUserInLog(logs[s], i, me, k);
    var j :| 0 <= j < i && logs[s][j].txnKey == u && me in logs[s][j].shardIds;
    ListedIsKnown(logs, shards, s, j);
    assert logs[s][j].txnKey in Txns(logs);
  }

  // With nothing missing, every transaction of this server is settled: they are all run.
  lemma NothingIsLeft(logs: seq<Log>, shards: map<Vertex, set<nat>>, me: nat, run: seq<Exec>, i: nat, j: nat, v: Vertex)
    requires WellFormed(logs, shards) && NoneMissing(logs, shards) && Run(logs, me, run) && i + 1 <= j < |run|
    requires AllTaken(logs, run[i]) && PassStep(run[i], run[i + 1]) && QueuesEmpty(run[j])
    requires v in Txns(logs) && v in shards && me in shards[v]
    ensures v in run[j].executed || v in run[j].skipped
    ensures RequestIsHere(run, v) ==> v in run[j].executed
  {
    hide RequestIsHere, WellFormed, Run, AllTaken, PassStep, QueuesEmpty, Reaches, Dependencies, Txns, ListedByAll, DepEdge;
    var g := Dependencies(logs, me);
    DependencyArcs(logs, me);
    forall u | Reaches(g, u, v)
      ensures Listed(logs, shards, me, u)
    {
      if u != v {
        var w := FirstEdge(g, u, v);
        assert Arc(g, u, w);
        DependencyIsMine(logs, shards, me, u, w);
      }
    }
    SettledAreRun(logs, shards, me, run, i, j, v);
    if RequestIsHere(run, v) {
      SettledAreExecuted(logs, shards, me, run, i, j, v);
    }
  }

  lemma FirstEdge(g: Graph, u: Vertex, v: Vertex) returns (w: Vertex)
    requires Reaches(g, u, v) && u != v
    ensures w in Succ(g, u)
  {
    var p :| IsPath(g, u, v, p);
    w := p[1];
  }
}
