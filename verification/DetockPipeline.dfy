/**
 DetockService/DetockExecutor.cc as a step system: the parsing thread, the
 ordering thread, eight graph workers and the executing thread, which share
 nothing but queues.  A state is a value; the executor class is proved to take
 these steps.  The result is confluence: whatever the interleaving, two runs over
 the same logs execute path-connected transactions in the same order.
 */
module DetockPipeline {
  import opened Collections
  import opened Digraphs
  import opened StableGraphs
  import opened DependencyLogs
  import opened GraphWorker
  import opened TopologicalSort

  const WORKERS := 8

  datatype GraphItem = GraphItem(seqNo: nat, graph: Graph)
  datatype ExecItem = ExecItem(seqNo: nat, keys: seq<Vertex>)

  // stream is everything ever put on the graph-info queue, of which the ordering
  // thread has taken the first `taken`; all, batches, orders, places and skipped are
  // history: recorded edges, graphs handed out, emissions executed, for each executed
  // transaction its batch and its position in that batch's emission, and the
  // transactions whose request was not known.
  datatype Exec = Exec(
    parse: Parse, n: seq<nat>, stream: seq<GraphInfo>, taken: nat,
    order: Order, all: Graph, batches: seq<Graph>,
    gQu: seq<seq<GraphItem>>, execQu: seq<seq<ExecItem>>,
    last: nat, orders: seq<seq<Vertex>>,
    executed: seq<Vertex>, places: seq<(nat, nat)>, skipped: set<Vertex>)

  function Init(shardNum: nat): Exec {
    Exec(Parse(seq(shardNum, _ => map[]), map[]), seq(shardNum, _ => 0), [], 0,
         Order(map[], map[], {}, {}, {}), map[], [],
         seq(WORKERS, _ => []), seq(WORKERS, _ => []),
         0, [], [], [], {})
  }

  // ---------- the steps ----------

  // The parsing thread takes the next transaction of shard s's log.
  ghost predicate ParseStep(logs: seq<Log>, me: nat, e: Exec, s: nat, e': Exec) {
    && s < |logs| && s < |e.n| && s < |e.parse.prev| && e.n[s] < |logs[s]|
    && var (p, out) := ParseTxn(e.parse, me, s, logs[s][e.n[s]]);
    e' == e.(parse := p, n := e.n[s := e.n[s] + 1], stream := e.stream + out)
  }

  ghost predicate IntakeStep(e: Exec, e': Exec) {
    && e.taken < |e.stream|
    && e' == e.(taken := e.taken + 1, order := Intake(e.order, e.stream[e.taken]), all := Recorded(e.all, e.stream[e.taken]))
  }

  function PushBack<T>(qs: seq<seq<T>>, w: nat, x: T): (r: seq<seq<T>>)
    requires w < |qs|
    ensures |r| == |qs|
  {
    qs[w := qs[w] + [x]]
  }

  function PopFront<T>(qs: seq<seq<T>>, w: nat): (r: seq<seq<T>>)
    requires w < |qs| && qs[w] != []
    ensures |r| == |qs|
  {
    qs[w := qs[w][1..]]
  }

  function HandOut(e: Exec, o: Order, stable: Graph): Exec
    requires |e.gQu| == WORKERS
  {
    if stable == map[] then e.(order := o)
    else
      var seqNo := |e.batches| + 1;
      e.(order := o, batches := e.batches + [stable], gQu := PushBack(e.gQu, seqNo % WORKERS, GraphItem(seqNo, stable)))
  }

  ghost predicate PassStep(e: Exec, e': Exec) {
    && |e.gQu| == WORKERS
    && exists stable, o :: Pass(e.order, stable, o) && e' == HandOut(e, o, stable)
  }

  function Worked(e: Exec, w: nat, keys: seq<Vertex>): Exec
    requires w < |e.gQu| && w < |e.execQu| && e.gQu[w] != []
  {
    e.(gQu := PopFront(e.gQu, w), execQu := PushBack(e.execQu, w, ExecItem(e.gQu[w][0].seqNo, keys)))
  }

  // Worker w orders the graph at the head of its queue.
  ghost predicate GraphStep(e: Exec, w: nat, e': Exec) {
    && w < |e.gQu| && w < |e.execQu| && e.gQu[w] != []
    && exists keys :: Emission(e.gQu[w][0].graph, keys) && e' == Worked(e, w, keys)
  }

  // The keys whose request is known at this server, and their positions.
  function Known(keys: seq<Vertex>, known: set<Vertex>): seq<Vertex> {
    if keys == [] then []
    else Known(keys[..|keys| - 1], known) + if keys[|keys| - 1] in known then [keys[|keys| - 1]] else []
  }

  function Places(keys: seq<Vertex>, known: set<Vertex>, batch: nat): seq<(nat, nat)> {
    if keys == [] then []
    else Places(keys[..|keys| - 1], known, batch) + if keys[|keys| - 1] in known then [(batch, |keys| - 1)] else []
  }

  function Ran(e: Exec, known: set<Vertex>): Exec
    requires |e.execQu| == WORKERS && e.execQu[(e.last + 1) % WORKERS] != []
  {
    var w := (e.last + 1) % WORKERS;
    var keys := e.execQu[w][0].keys;
    e.(execQu := PopFront(e.execQu, w), last := e.last + 1, orders := e.orders + [keys],
    executed := e.executed + Known(keys, known), places := e.places + Places(keys, known, e.last),
    skipped := e.skipped + (KeySet(keys) - known))
  }

  // The executing thread takes the next batch, round robin over the workers.
  ghost predicate ExecuteStep(e: Exec, known: set<Vertex>, e': Exec) {
    && |e.execQu| == WORKERS && e.execQu[(e.last + 1) % WORKERS] != []
    && e' == Ran(e, known)
  }

  ghost predicate Step(logs: seq<Log>, me: nat, e: Exec, e': Exec) {
    || (exists s :: ParseStep(logs, me, e, s, e'))
    || IntakeStep(e, e')
    || PassStep(e, e')
    || (exists w :: GraphStep(e, w, e'))
    || (exists known :: ExecuteStep(e, known, e'))
  }

  ghost predicate Run(logs: seq<Log>, me: nat, run: seq<Exec>) {
    && run != [] && run[0] == Init(|logs|)
    && forall i, j :: 0 <= i && j == i + 1 && j < |run| ==> Step(logs, me, run[i], run[j])
  }

  // ---------- the queues ----------

  // The batch numbers above last, up to n, that go to worker w.
  function Pending(last: nat, n: nat, w: nat): seq<nat> {
    if n <= last then [] else Pending(last, n - 1, w) + if n % WORKERS == w then [n] else []
  }

  function GraphNos(q: seq<GraphItem>): seq<nat> {
    seq(|q|, i requires 0 <= i < |q| => q[i].seqNo)
  }

  function ExecNos(q: seq<ExecItem>): seq<nat> {
    seq(|q|, i requires 0 <= i < |q| => q[i].seqNo)
  }

  // Worker w holds exactly its share of the batches not yet executed, in order.
  ghost predicate WorkerOk(batches: seq<Graph>, last: nat, w: nat, gq: seq<GraphItem>, eq: seq<ExecItem>) {
    && ExecNos(eq) + GraphNos(gq) == Pending(last, |batches|, w)
    && (forall i :: 0 <= i < |gq| ==> 0 < gq[i].seqNo <= |batches| && gq[i].graph == batches[gq[i].seqNo - 1])
    && (forall i :: 0 <= i < |eq| ==> 0 < eq[i].seqNo <= |batches| && Emission(batches[eq[i].seqNo - 1], eq[i].keys))
  }

  ghost predicate QueuesOk(e: Exec) {
    && |e.gQu| == WORKERS && |e.execQu| == WORKERS
    && e.last <= |e.batches| && |e.orders| == e.last
    && (forall w :: 0 <= w < WORKERS ==> WorkerOk(e.batches, e.last, w, e.gQu[w], e.execQu[w]))
    && (forall i :: 0 <= i < e.last ==> Emission(e.batches[i], e.orders[i]))
  }

  ghost predicate InOrders(orders: seq<seq<Vertex>>, v: Vertex) {
    exists b :: 0 <= b < |orders| && v in orders[b]
  }

  // Every transaction of a batch that was run has been executed or skipped.
  ghost predicate AllRun(e: Exec) {
    forall v :: InOrders(e.orders, v) <==> v in e.executed || v in e.skipped
  }

  ghost predicate ExecutedOk(e: Exec) {
    && |e.places| == |e.executed|
    && (forall x :: 0 <= x < |e.places| ==>
          e.places[x].0 < |e.orders| && e.places[x].1 < |e.orders[e.places[x].0]|
          && e.executed[x] == e.orders[e.places[x].0][e.places[x].1])
    && (forall x, y :: 0 <= x < y < |e.places| ==> Before(e.places[x], e.places[y]))
  }

  ghost predicate Mentioned(stream: seq<GraphInfo>, v: Vertex) {
    exists info :: info in stream && info.Edge? && (info.from == v || info.to == v)
  }

  // The ordering thread's state against what it has taken from its queue.
  ghost predicate TakenOk(e: Exec) {
    && e.taken <= |e.stream|
    && (forall v :: v in e.order.complete <==> Complete(v) in e.stream[..e.taken])
    && (forall u, v :: Arc(e.all, u, v) <==> Edge(u, v) in e.stream[..e.taken])
    && (forall v :: v in e.order.incomplete ==> Mentioned(e.stream[..e.taken], v))
  }

  ghost predicate ExecInv(logs: seq<Log>, shards: map<Vertex, set<nat>>, me: nat, e: Exec) {
    && ParseInv(logs, shards, me, e.n, e.parse, e.stream)
    && TakenOk(e)
    && OrderInv(e.order, e.all, e.batches)
    && QueuesOk(e)
    && ExecutedOk(e) && AllRun(e)
  }

  lemma InitInv(logs: seq<Log>, shards: map<Vertex, set<nat>>, me: nat)
    ensures ExecInv(logs, shards, me, Init(|logs|))
  {
    assert Pending(0, 0, 0) == [];
    forall t
      ensures Collected(logs, Init(|logs|).n, me, t) == {}
    {
    }
  }

  lemma ParseStepKeeps(logs: seq<Log>, shards: map<Vertex, set<nat>>, me: nat, e: Exec, s: nat, e': Exec)
    requires WellFormed(logs, shards) && ExecInv(logs, shards, me, e) && ParseStep(logs, me, e, s, e')
    ensures ExecInv(logs, shards, me, e')
  {
    hide WellFormed, OrderInv, QueuesOk, ExecutedOk, AllRun, Mentioned, ParseTxn;
    ParseTxnKeeps(logs, shards, me, e.n, e.parse, e.stream, s);
    assert e'.stream[..e.taken] == e.stream[..e.taken];
    QueuesSame(e, e');
    AllRunSame(e, e');
  }

  // Neither queues nor history mention the intake side.
  lemma QueuesSame(e: Exec, e': Exec)
    requires e'.gQu == e.gQu && e'.execQu == e.execQu && e'.batches == e.batches && e'.last == e.last
    requires e'.orders == e.orders && e'.executed == e.executed && e'.places == e.places
    ensures QueuesOk(e) ==> QueuesOk(e')
    ensures ExecutedOk(e) ==> ExecutedOk(e')
  {
  }

  lemma AllRunSame(e: Exec, e': Exec)
    requires e'.orders == e.orders && e'.executed == e.executed && e'.skipped == e.skipped
    ensures AllRun(e) ==> AllRun(e')
  {
  }

  lemma NextIsTimely(logs: seq<Log>, me: nat, e: Exec)
    requires StreamOk(logs, me, e.stream) && TakenOk(e) && e.taken < |e.stream|
    ensures Timely(e.order, e.stream[e.taken])
  {
    assert TimelyAt(logs, me, e.stream, e.taken);
  }

  lemma IntakeStepKeeps(logs: seq<Log>, shards: map<Vertex, set<nat>>, me: nat, e: Exec, e': Exec)
    requires ExecInv(logs, shards, me, e) && IntakeStep(e, e')
    ensures ExecInv(logs, shards, me, e')
  {
    hide OrderInv, QueuesOk, ExecutedOk, AllRun, Mentioned, Recorded, Arc, Timely;
    var info := e.stream[e.taken];
    NextIsTimely(logs, me, e);
    IntakeKeeps(e.order, e.all, e.batches, info);
    assert e.stream[..e.taken + 1] == e.stream[..e.taken] + [info];
    RecordedArcs(e.all, info);
    MentionedMore(e, e');
    QueuesSame(e, e');
    AllRunSame(e, e');
  }

  lemma MentionedMore(e: Exec, e': Exec)
    requires TakenOk(e) && IntakeStep(e, e')
    ensures forall v :: v in e'.order.incomplete ==> Mentioned(e'.stream[..e'.taken], v)
  {
    var info := e.stream[e.taken];
    var taken := e'.stream[..e'.taken];
    assert taken == e.stream[..e.taken] + [info];
    forall v | v in e'.order.incomplete
      ensures Mentioned(taken, v)
    {
      if v in e.order.incomplete {
        var i :| i in e.stream[..e.taken] && i.Edge? && (i.from == v || i.to == v);
        assert i in taken;
      } else {
        assert info in taken;
      }
    }
  }

  lemma PassStepKeeps(logs: seq<Log>, shards: map<Vertex, set<nat>>, me: nat, e: Exec, e': Exec)
    requires ExecInv(logs, shards, me, e) && PassStep(e, e')
    ensures ExecInv(logs, shards, me, e')
  {
    hide ParseInv, OrderInv, Pass, QueuesOk, ExecutedOk, AllRun, Mentioned, Arc;
    var stable, o :| Pass(e.order, stable, o) && e' == HandOut(e, o, stable);
    PassKeeps(e.order, e.all, e.batches, stable, o);
    PassCompletes(e.order, stable, o);
    AllRunSame(e, e');
    if stable != map[] {
      QueuesAfterHandOut(e, o, stable);
    } else {
      QueuesSame(e, e');
    }
  }

  lemma QueuesAfterHandOut(e: Exec, o: Order, stable: Graph)
    requires QueuesOk(e) && stable != map[]
    ensures QueuesOk(HandOut(e, o, stable))
    ensures ExecutedOk(e) ==> ExecutedOk(HandOut(e, o, stable))
  {
    hide WorkerOk, Emission;
    var e' := HandOut(e, o, stable);
    forall w | 0 <= w < WORKERS
      ensures WorkerOk(e'.batches, e'.last, w, e'.gQu[w], e'.execQu[w])
    {
      WorkerHandOut(e.batches, e.last, w, e.gQu[w], e.execQu[w], stable);
    }
  }

  lemma WorkerHandOut(batches: seq<Graph>, last: nat, w: nat, gq: seq<GraphItem>, eq: seq<ExecItem>, stable: Graph)
    requires WorkerOk(batches, last, w, gq, eq) && last <= |batches| && w < WORKERS
    ensures var seqNo := |batches| + 1;
      WorkerOk(batches + [stable], last, w, if w == seqNo % WORKERS then gq + [GraphItem(seqNo, stable)] else gq, eq)
  {
    hide Emission;
    var seqNo := |batches| + 1;
    var t := batches + [stable];
    assert forall i :: 0 <= i < |batches| ==> t[i] == batches[i];
    if w == seqNo % WORKERS {
      var gq' := gq + [GraphItem(seqNo, stable)];
      assert GraphNos(gq') == GraphNos(gq) + [seqNo];
      assert ExecNos(eq) + GraphNos(gq') == Pending(last, |batches|, w) + [seqNo];
    }
  }

  lemma PassCompletes(o: Order, stable: Graph, o': Order)
    requires Pass(o, stable, o')
    ensures o'.complete == o.complete && o'.incomplete == o.incomplete - o.complete
  {
  }

  lemma GraphStepKeeps(logs: seq<Log>, shards: map<Vertex, set<nat>>, me: nat, e: Exec, w: nat, e': Exec)
    requires ExecInv(logs, shards, me, e) && GraphStep(e, w, e')
    ensures ExecInv(logs, shards, me, e')
  {
    hide ParseInv, OrderInv, Emission, Arc, WorkerOk, AllRun, Mentioned;
    var keys :| Emission(e.gQu[w][0].graph, keys) && e' == Worked(e, w, keys);
    WorkerWorked(e.batches, e.last, w, e.gQu[w], e.execQu[w], keys);
    AllRunSame(e, e');
  }

  lemma WorkerWorked(batches: seq<Graph>, last: nat, w: nat, gq: seq<GraphItem>, eq: seq<ExecItem>, keys: seq<Vertex>)
    requires WorkerOk(batches, last, w, gq, eq) && gq != [] && Emission(gq[0].graph, keys)
    ensures WorkerOk(batches, last, w, gq[1..], eq + [ExecItem(gq[0].seqNo, keys)])
  {
    hide Emission, Pending;
    assert ExecNos(eq + [ExecItem(gq[0].seqNo, keys)]) == ExecNos(eq) + [gq[0].seqNo];
    assert GraphNos(gq) == [gq[0].seqNo] + GraphNos(gq[1..]);
  }

  lemma {:induction false} PendingHead(last: nat, n: nat, w: nat)
    requires w < WORKERS
    ensures w == (last + 1) % WORKERS && last < n ==> Pending(last, n, w) == [last + 1] + Pending(last + 1, n, w)
    ensures w != (last + 1) % WORKERS || n <= last ==> Pending(last, n, w) == Pending(last + 1, n, w)
    decreases n
  {
    if n > last + 1 {
      PendingHead(last, n - 1, w);
    } else if n == last + 1 {
      assert Pending(last, n - 1, w) == [];
    }
  }

  lemma {:induction false} PendingBounds(last: nat, n: nat, w: nat)
    ensures forall i :: i in Pending(last, n, w) ==> last < i <= n
  {
    if n > last {
      PendingBounds(last, n - 1, w);
    }
  }

  // The head of the queue the executing thread polls is the next batch.
  lemma NextBatch(e: Exec)
    requires QueuesOk(e) && e.execQu[(e.last + 1) % WORKERS] != []
    ensures e.last < |e.batches| && e.execQu[(e.last + 1) % WORKERS][0].seqNo == e.last + 1
  {
    hide Emission;
    var w := (e.last + 1) % WORKERS;
    assert WorkerOk(e.batches, e.last, w, e.gQu[w], e.execQu[w]);
    var nos := ExecNos(e.execQu[w]) + GraphNos(e.gQu[w]);
    PendingBounds(e.last, |e.batches|, w);
    PendingHead(e.last, |e.batches|, w);
    assert nos[0] == e.execQu[w][0].seqNo && nos[0] in nos;
  }

  lemma QueuesAfterRun(e: Exec, known: set<Vertex>)
    requires QueuesOk(e) && e.execQu[(e.last + 1) % WORKERS] != []
    ensures QueuesOk(Ran(e, known))
  {
    hide Emission, WorkerOk;
    NextBatch(e);
    var e' := Ran(e, known);
    HeadIsEmission(e);
    forall w | 0 <= w < WORKERS
      ensures WorkerOk(e'.batches, e'.last, w, e'.gQu[w], e'.execQu[w])
    {
      WorkerRan(e.batches, e.last, w, e.gQu[w], e.execQu[w]);
    }
  }

  lemma HeadIsEmission(e: Exec)
    requires QueuesOk(e) && e.execQu[(e.last + 1) % WORKERS] != [] && e.last < |e.batches|
    requires e.execQu[(e.last + 1) % WORKERS][0].seqNo == e.last + 1
    ensures Emission(e.batches[e.last], e.execQu[(e.last + 1) % WORKERS][0].keys)
  {
  }

  lemma WorkerRan(batches: seq<Graph>, last: nat, w: nat, gq: seq<GraphItem>, eq: seq<ExecItem>)
    requires WorkerOk(batches, last, w, gq, eq) && w < WORKERS && last < |batches|
    requires w == (last + 1) % WORKERS ==> eq != []
    ensures WorkerOk(batches, last + 1, w, gq, if w == (last + 1) % WORKERS then eq[1..] else eq)
  {
    hide Emission;
    PendingHead(last, |batches|, w);
    var nos := ExecNos(eq) + GraphNos(gq);
    if w == (last + 1) % WORKERS {
      assert ExecNos(eq[1..]) + GraphNos(gq) == nos[1..];
    }
  }

  lemma {:induction false} KnownPlaces(keys: seq<Vertex>, known: set<Vertex>, batch: nat)
    ensures |Known(keys, known)| == |Places(keys, known, batch)|
    ensures forall x :: 0 <= x < |Known(keys, known)| ==>
              var place := Places(keys, known, batch)[x];
              place.0 == batch && place.1 < |keys| && Known(keys, known)[x] == keys[place.1]
    ensures forall x, y :: 0 <= x < y < |Known(keys, known)| ==> Places(keys, known, batch)[x].1 < Places(keys, known, batch)[y].1
  {
    if keys != [] {
      var rest := keys[..|keys| - 1];
      KnownPlaces(rest, known, batch);
      forall x | 0 <= x < |Known(keys, known)|
        ensures var place := Places(keys, known, batch)[x];
          place.0 == batch && place.1 < |keys| && Known(keys, known)[x] == keys[place.1]
      {
        if x < |Known(rest, known)| {
          var place := Places(rest, known, batch)[x];
          assert Places(keys, known, batch)[x] == place && Known(keys, known)[x] == rest[place.1];
        }
      }
    }
  }

  lemma ExecutedAfterRun(e: Exec, known: set<Vertex>)
    requires QueuesOk(e) && e.execQu[(e.last + 1) % WORKERS] != [] && ExecutedOk(e)
    ensures ExecutedOk(Ran(e, known))
  {
    hide Emission, Pending;
    var keys := e.execQu[(e.last + 1) % WORKERS][0].keys;
    KnownPlaces(keys, known, e.last);
  }

  lemma {:induction false} KnownIs(keys: seq<Vertex>, known: set<Vertex>)
    ensures forall v :: v in Known(keys, known) <==> v in keys && v in known
  {
    if keys != [] {
      var n := |keys| - 1;
      KnownIs(keys[..n], known);
      assert keys == keys[..n] + [keys[n]];
    }
  }

  // The batch at the head of the queue that the executing thread polls.
  ghost predicate InNextBatch(e: Exec, v: Vertex) {
    && |e.execQu| == WORKERS && e.execQu[(e.last + 1) % WORKERS] != []
    && v in e.execQu[(e.last + 1) % WORKERS][0].keys
  }

  // A turn of the executing thread takes that batch, executes exactly its
  // transactions whose request is known, in order after what was executed before,
  // and skips exactly the others.
  lemma KnownAreExecuted(e: Exec, known: set<Vertex>, e': Exec)
    requires ExecuteStep(e, known, e')
    ensures e'.last == e.last + 1 && |e'.execQu| == WORKERS
    ensures e'.execQu[(e.last + 1) % WORKERS] == e.execQu[(e.last + 1) % WORKERS][1..]
    ensures |e.executed| <= |e'.executed| && e'.executed[..|e.executed|] == e.executed
    ensures forall v :: v in e'.executed[|e.executed|..] <==> InNextBatch(e, v) && v in known
    ensures forall v :: v in e'.skipped <==> v in e.skipped || (InNextBatch(e, v) && v !in known)
  {
    hide Places;
    var keys := e.execQu[(e.last + 1) % WORKERS][0].keys;
    KnownIs(keys, known);
    assert e'.executed[|e.executed|..] == Known(keys, known);
  }

  lemma AllRunAfterRun(e: Exec, known: set<Vertex>)
    requires AllRun(e) && |e.execQu| == WORKERS && e.execQu[(e.last + 1) % WORKERS] != []
    ensures AllRun(Ran(e, known))
  {
    hide Known, Places;
    var keys := e.execQu[(e.last + 1) % WORKERS][0].keys;
    var orders := e.orders + [keys];
    KnownIs(keys, known);
    forall v
      ensures InOrders(orders, v) <==> InOrders(e.orders, v) || v in keys
    {
      assert orders[|e.orders|] == keys;
      if InOrders(e.orders, v) {
        var b :| 0 <= b < |e.orders| && v in e.orders[b];
        assert v in orders[b];
      }
    }
  }

  lemma StepKeeps(logs: seq<Log>, shards: map<Vertex, set<nat>>, me: nat, e: Exec, e': Exec)
    requires WellFormed(logs, shards) && ExecInv(logs, shards, me, e) && Step(logs, me, e, e')
    ensures ExecInv(logs, shards, me, e')
  {
    hide ExecInv, WellFormed, ParseStep, IntakeStep, PassStep, GraphStep;
    if s :| ParseStep(logs, me, e, s, e') {
      ParseStepKeeps(logs, shards, me, e, s, e');
    } else if IntakeStep(e, e') {
      IntakeStepKeeps(logs, shards, me, e, e');
    } else if PassStep(e, e') {
      PassStepKeeps(logs, shards, me, e, e');
    } else if w :| GraphStep(e, w, e') {
      GraphStepKeeps(logs, shards, me, e, w, e');
    } else {
      var known :| ExecuteStep(e, known, e');
      ExecuteStepKeeps(logs, shards, me, e, known, e');
    }
  }

  lemma ExecuteStepKeeps(logs: seq<Log>, shards: map<Vertex, set<nat>>, me: nat, e: Exec, known: set<Vertex>, e': Exec)
    requires ExecInv(logs, shards, me, e) && ExecuteStep(e, known, e')
    ensures ExecInv(logs, shards, me, e')
  {
    hide ParseInv, OrderInv, QueuesOk, ExecutedOk, AllRun, Mentioned, Arc;
    QueuesAfterRun(e, known);
    ExecutedAfterRun(e, known);
    AllRunAfterRun(e, known);
  }

  lemma {:induction false} RunInv(logs: seq<Log>, shards: map<Vertex, set<nat>>, me: nat, run: seq<Exec>, i: nat)
    requires WellFormed(logs, shards) && Run(logs, me, run) && i < |run|
    ensures ExecInv(logs, shards, me, run[i])
    decreases i
  {
    hide ExecInv, WellFormed, Step;
    if i == 0 {
      InitInv(logs, shards, me);
    } else {
      RunInv(logs, shards, me, run, i - 1);
      StepKeeps(logs, shards, me, run[i - 1], run[i]);
    }
  }

  // What the executor's methods ask of their state holds in every run.
  lemma ReadyInEveryRun(logs: seq<Log>, shards: map<Vertex, set<nat>>, me: nat, run: seq<Exec>, i: nat)
    requires WellFormed(logs, shards) && Run(logs, me, run) && i < |run|
    ensures GraphOk(run[i].order, run[i].all) && QueuesOk(run[i]) && BatchesOk(run[i].all, run[i].batches)
  {
    hide WellFormed, Step, Run, GraphOk, QueuesOk, BatchesOk, ParseInv, TakenOk, ExecutedOk;
    RunInv(logs, shards, me, run, i);
  }

  // ---------- confluence ----------

  // All dependencies of an emitted vertex were recorded before it was emitted.
  lemma EmittedSeesAll(logs: seq<Log>, shards: map<Vertex, set<nat>>, me: nat, e: Exec, u: Vertex, v: Vertex)
    requires ExecInv(logs, shards, me, e) && v in e.order.pruned
    ensures DepEdge(logs, me, u, v) <==> Arc(e.all, u, v)
  {
    hide PrevOk, MetaOk, EdgesOk, QueuesOk, ExecutedOk, BatchesOk, EmittedBy, DepEdge;
    var taken := e.stream[..e.taken];
    assert Complete(v) in taken;
    var j :| 0 <= j < e.taken && e.stream[j] == Complete(v);
    assert TimelyAt(logs, me, e.stream, j);
    if DepEdge(logs, me, u, v) {
      assert Edge(u, v) in e.stream[..j];
      assert Edge(u, v) in taken;
    }
    if Arc(e.all, u, v) {
      var i :| 0 <= i < e.taken && e.stream[i] == Edge(u, v);
      assert TimelyAt(logs, me, e.stream, i);
    }
  }

  // For emitted targets the recorded graph has the paths of the full one.
  lemma RecordedPaths(logs: seq<Log>, shards: map<Vertex, set<nat>>, me: nat, e: Exec, u: Vertex, v: Vertex)
    requires ExecInv(logs, shards, me, e) && v in e.order.pruned
    ensures Reaches(Dependencies(logs, me), u, v) <==> Reaches(e.all, u, v)
  {
    hide ExecInv, DepEdge, Dependencies;
    var g := Dependencies(logs, me);
    var s := e.order.pruned;
    DependencyArcs(logs, me);
    forall x, y | y in s
      ensures Arc(g, x, y) <==> Arc(e.all, x, y)
    {
      EmittedSeesAll(logs, shards, me, e, x, y);
    }
    forall x, y | y in s && Arc(e.all, x, y)
      ensures x in s
    {
      EmittedBackward(logs, shards, me, e, x, y);
    }
    forall x, y | y in s && (y in Succ(g, x) || y in Succ(e.all, x))
      ensures x in s && Arc(g, x, y) && Arc(e.all, x, y)
    {
      assert Arc(g, x, y) || Arc(e.all, x, y);
    }
    if Reaches(g, u, v) {
      SamePath(g, e.all, s, u, v);
    }
    if Reaches(e.all, u, v) {
      SamePath(e.all, g, s, u, v);
    }
  }

  lemma SamePath(g: Graph, h: Graph, s: set<Vertex>, u: Vertex, v: Vertex)
    requires Reaches(g, u, v) && v in s
    requires forall x, y :: y in s && y in Succ(g, x) ==> x in s && Arc(h, x, y)
    ensures Reaches(h, u, v)
  {
    var p :| IsPath(g, u, v, p);
    PathComesFrom(g, s, u, v, p);
    forall i, j | 0 <= i && j == i + 1 && j < |p|
      ensures p[j] in Succ(h, p[i])
    {
      assert p[j] in p;
      assert Arc(h, p[i], p[j]);
    }
    assert IsPath(h, u, v, p);
  }

  lemma EmittedBackward(logs: seq<Log>, shards: map<Vertex, set<nat>>, me: nat, e: Exec, u: Vertex, v: Vertex)
    requires ExecInv(logs, shards, me, e) && v in e.order.pruned && Arc(e.all, u, v)
    ensures u in e.order.pruned
  {
    hide ParseInv, TakenOk, QueuesOk, ExecutedOk, GraphOk;
    var j :| 0 <= j < |e.batches| && v in e.batches[j];
    assert BatchClosed(e.all, e.batches, j);
    var i :| 0 <= i < j + 1 && u in e.batches[i];
  }

  // Where an executed transaction sits.
  lemma PlaceOf(e: Exec, x: nat) returns (b: nat, i: nat)
    requires QueuesOk(e) && ExecutedOk(e) && x < |e.executed|
    ensures e.places[x] == (b, i) && b < |e.batches| && b < |e.orders| && i < |e.orders[b]|
    ensures e.executed[x] == e.orders[b][i] && e.executed[x] in e.batches[b]
    ensures Emission(e.batches[b], e.orders[b])
  {
    b, i := e.places[x].0, e.places[x].1;
    assert e.orders[b][i] in e.orders[b];
  }

  // The executed sequence obeys the full dependency graph: paths decide between
  // components, transaction keys within one.
  lemma ExecutionObeysPaths(logs: seq<Log>, shards: map<Vertex, set<nat>>, me: nat, e: Exec, x: nat, y: nat)
    requires ExecInv(logs, shards, me, e) && x < |e.executed| && y < |e.executed|
    requires e.executed[x] != e.executed[y]
    requires Precedes(Dependencies(logs, me), e.executed[x], e.executed[y])
    ensures x < y
  {
    hide ParseInv, TakenOk, GraphOk, BatchClosed, Reaches, Dependencies, Pending;
    var u, v := e.executed[x], e.executed[y];
    var b, i := PlaceOf(e, x);
    var c, j := PlaceOf(e, y);
    assert EmittedBy(e.batches, |e.batches|, u) && EmittedBy(e.batches, |e.batches|, v);
    RecordedPaths(logs, shards, me, e, u, v);
    RecordedPaths(logs, shards, me, e, v, u);
    PathBatches(e.all, e.batches, u, v, c);
    assert b <= c;
    if b == c {
      PathInsideBatch(e.all, e.batches, u, v, b);
      PathInsideBatch(e.all, e.batches, v, u, b);
      assert Precedes(e.batches[b], e.orders[b][i], e.orders[b][j]);
    }
  }

  // No transaction is executed twice.
  lemma ExecutedOnce(e: Exec, all: Graph, x: nat, y: nat)
    requires QueuesOk(e) && ExecutedOk(e) && BatchesOk(all, e.batches)
    requires x < |e.executed| && y < |e.executed| && e.executed[x] == e.executed[y]
    ensures x == y
  {
    hide BatchClosed, Pending;
    var b, i := PlaceOf(e, x);
    var c, j := PlaceOf(e, y);
    assert b == c && i == j;
  }

  // Confluence over whole runs: whatever the interleaving of the shards' logs,
  // the cut points of the passes and the schedule of the workers, two runs that
  // have executed both of two path-connected transactions agree on their order.
  lemma Confluence(logs: seq<Log>, shards: map<Vertex, set<nat>>, me: nat, run1: seq<Exec>, run2: seq<Exec>,
                   k1: nat, k2: nat, x1: nat, y1: nat, x2: nat, y2: nat)
    requires WellFormed(logs, shards) && Run(logs, me, run1) && Run(logs, me, run2)
    requires k1 < |run1| && k2 < |run2|
    requires x1 < |run1[k1].executed| && y1 < |run1[k1].executed|
    requires x2 < |run2[k2].executed| && y2 < |run2[k2].executed|
    requires run1[k1].executed[x1] == run2[k2].executed[x2]
    requires run1[k1].executed[y1] == run2[k2].executed[y2]
    requires var g := Dependencies(logs, me);
      var u, v := run1[k1].executed[x1], run1[k1].executed[y1];
      Reaches(g, u, v) || Reaches(g, v, u)
    ensures x1 < y1 <==> x2 < y2
  {
    hide ExecInv, WellFormed, Step, Reaches, Dependencies;
    var e1, e2 := run1[k1], run2[k2];
    var u, v := e1.executed[x1], e1.executed[y1];
    RunInv(logs, shards, me, run1, k1);
    RunInv(logs, shards, me, run2, k2);
    if u == v {
      SameTransaction(logs, shards, me, e1, x1, y1);
      SameTransaction(logs, shards, me, e2, x2, y2);
    } else if Precedes(Dependencies(logs, me), u, v) {
      ExecutionObeysPaths(logs, shards, me, e1, x1, y1);
      ExecutionObeysPaths(logs, shards, me, e2, x2, y2);
    } else {
      ExecutionObeysPaths(logs, shards, me, e1, y1, x1);
      ExecutionObeysPaths(logs, shards, me, e2, y2, x2);
    }
  }

  lemma SameTransaction(logs: seq<Log>, shards: map<Vertex, set<nat>>, me: nat, e: Exec, x: nat, y: nat)
    requires ExecInv(logs, shards, me, e)
    requires x < |e.executed| && y < |e.executed| && e.executed[x] == e.executed[y]
    ensures x == y
  {
    ExecutedOnce(e, e.all, x, y);
  }

  // In particular two transactions that use a common key in one shard's log.
  lemma ConflictsAgree(logs: seq<Log>, shards: map<Vertex, set<nat>>, me: nat, run1: seq<Exec>, run2: seq<Exec>,
                       k1: nat, k2: nat, x1: nat, y1: nat, x2: nat, y2: nat, s: nat, i: nat, j: nat, key: int)
    requires WellFormed(logs, shards) && Run(logs, me, run1) && Run(logs, me, run2)
    requires k1 < |run1| && k2 < |run2|
    requires x1 < |run1[k1].executed| && y1 < |run1[k1].executed|
    requires x2 < |run2[k2].executed| && y2 < |run2[k2].executed|
    requires s < |logs| && i < j < |logs[s]| && me in logs[s][i].shardIds && me in logs[s][j].shardIds
    requires key in logs[s][i].localKeys && key in logs[s][j].localKeys
    requires run1[k1].executed[x1] == run2[k2].executed[x2] == logs[s][i].txnKey
    requires run1[k1].executed[y1] == run2[k2].executed[y2] == logs[s][j].txnKey
    ensures x1 < y1 <==> x2 < y2
  {
    SharedKeyIsConnected(logs, me, s, i, j, key);
    Confluence(logs, shards, me, run1, run2, k1, k2, x1, y1, x2, y2);
  }
}
