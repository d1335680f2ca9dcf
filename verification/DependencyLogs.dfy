/**
 DetockService/DetockExecutor.cc, ParseDepTd: turning the per-shard transaction
 logs into a stream of dependency edges and completed vertices.
 */
module DependencyLogs {
  import opened Collections
  import opened Digraphs
  import opened StableGraphs

  datatype TxnMeta = TxnMeta(txnKey: Vertex, localKeys: seq<int>, shardIds: seq<nat>)

  datatype TxnMetaData = TxnMetaData(involved: set<nat>, collected: set<nat>) {
    predicate IsComplete() {
      |involved| > 0 && |involved| == |collected|
    }
  }

  type Log = seq<TxnMeta>

  // ---------- what the logs of all shards determine ----------

  // The last transaction among the first n of a shard's log that involves
  // server shard me and uses key k.
  function LastUser(log: Log, n: nat, me: nat, k: int): Option<Vertex>
    requires n <= |log|
  {
    if n == 0 then None
    else if me in log[n - 1].shardIds && k in log[n - 1].localKeys then Some(log[n - 1].txnKey)
    else LastUser(log, n - 1, me, k)
  }

  // v stands at position i of the log and u used one of its keys last before.
  ghost predicate LogEdge(log: Log, me: nat, i: nat, u: Vertex, v: Vertex) {
    && i < |log| && me in log[i].shardIds && log[i].txnKey == v
    && exists k :: k in log[i].localKeys && LastUser(log, i, me, k) == Some(u)
  }

  ghost predicate DepEdge(logs: seq<Log>, me: nat, u: Vertex, v: Vertex) {
    exists s: nat, i: nat :: s < |logs| && LogEdge(logs[s], me, i, u, v)
  }

  ghost function Txns(logs: seq<Log>): set<Vertex> {
    set s, i | 0 <= s < |logs| && 0 <= i < |logs[s]| :: logs[s][i].txnKey
  }

  // The dependency graph of the complete logs, as seen by server shard me.
  ghost function Dependencies(logs: seq<Log>, me: nat): Graph {
    map u | u in Txns(logs) :: set v | v in Txns(logs) && DepEdge(logs, me, u, v)
  }

  lemma LastUserInLog(log: Log, n: nat, me: nat, k: int)
    requires n <= |log| && LastUser(log, n, me, k).Some?
    ensures exists i :: 0 <= i < n && log[i].txnKey == LastUser(log, n, me, k).value && me in log[i].shardIds
  {
  }

  lemma DependencyArcs(logs: seq<Log>, me: nat)
    ensures forall u, v :: Arc(Dependencies(logs, me), u, v) <==> DepEdge(logs, me, u, v)
  {
    forall u, v | DepEdge(logs, me, u, v)
      ensures u in Txns(logs) && v in Txns(logs)
    {
      var s: nat, i: nat :| s < |logs| && LogEdge(logs[s], me, i, u, v);
      var k :| k in logs[s][i].localKeys && LastUser(logs[s], i, me, k) == Some(u);
      LastUserInLog(logs[s], i, me, k);
      var j :| 0 <= j < i && logs[s][j].txnKey == u;
      assert u in Txns(logs);
    }
  }

  // What the system promises about the logs: a log lists a transaction at most
  // once, only in shards it involves, and all agree on the shards involved.
  ghost predicate WellFormed(logs: seq<Log>, shards: map<Vertex, set<nat>>) {
    && (forall s: nat, i: nat :: s < |logs| && i < |logs[s]| ==>
          var m := logs[s][i];
          m.txnKey in shards && shards[m.txnKey] == (set x | x in m.shardIds) && s in shards[m.txnKey])
    && (forall s: nat, i: nat, j: nat :: s < |logs| && i < |logs[s]| && j < |logs[s]| && logs[s][i].txnKey == logs[s][j].txnKey ==> i == j)
  }

  // ---------- the thread's state and one transaction of a sync message ----------

  datatype Parse = Parse(prev: seq<map<int, Vertex>>, meta: map<Vertex, TxnMetaData>)

  // One edge for every key used before, in the order of the keys.
  function EdgesTo(prev: map<int, Vertex>, keys: seq<int>, t: Vertex): seq<GraphInfo> {
    if keys == [] then []
    else
      EdgesTo(prev, keys[..|keys| - 1], t)
      + if keys[|keys| - 1] in prev then [Edge(prev[keys[|keys| - 1]], t)] else []
  }

  function Used(prev: map<int, Vertex>, keys: seq<int>, t: Vertex): map<int, Vertex> {
    prev + map k | k in keys :: t
  }

  function Collect(p: Parse, s: nat, m: TxnMeta): TxnMetaData {
    var d := if m.txnKey in p.meta then p.meta[m.txnKey] else TxnMetaData(set x | x in m.shardIds, {});
    d.(collected := d.collected + {s})
  }

  function ParseTxn(p: Parse, me: nat, s: nat, m: TxnMeta): (Parse, seq<GraphInfo>)
    requires s < |p.prev|
  {
    if me !in m.shardIds then (p, [])
    else
      var edges := EdgesTo(p.prev[s], m.localKeys, m.txnKey);
      var prev := p.prev[s := Used(p.prev[s], m.localKeys, m.txnKey)];
      var d := Collect(p, s, m);
      if d.IsComplete() then (Parse(prev, p.meta - {m.txnKey}), edges + [Complete(m.txnKey)])
      else (Parse(prev, p.meta[m.txnKey := d]), edges)
  }

  // ---------- invariant of the parsed prefix ----------

  ghost predicate Seen(log: Log, n: nat, me: nat, t: Vertex) {
    exists i :: 0 <= i < n && i < |log| && log[i].txnKey == t && me in log[i].shardIds
  }

  ghost function Collected(logs: seq<Log>, n: seq<nat>, me: nat, t: Vertex): set<nat>
    requires |n| == |logs|
  {
    set s | 0 <= s < |logs| && Seen(logs[s], n[s], me, t)
  }

  // Nothing about a vertex follows its completion, and every dependency of a
  // vertex comes before it.
  ghost predicate TimelyAt(logs: seq<Log>, me: nat, stream: seq<GraphInfo>, j: nat)
    requires j < |stream|
  {
    match stream[j]
    case Edge(u, v) => DepEdge(logs, me, u, v) && Complete(v) !in stream[..j]
    case Complete(v) =>
      && Complete(v) !in stream[..j]
      && forall u :: DepEdge(logs, me, u, v) ==> Edge(u, v) in stream[..j]
  }

  ghost predicate StreamOk(logs: seq<Log>, me: nat, stream: seq<GraphInfo>) {
    forall j :: 0 <= j < |stream| ==> TimelyAt(logs, me, stream, j)
  }

  ghost predicate PrevOk(logs: seq<Log>, me: nat, n: seq<nat>, p: Parse)
    requires |n| == |logs| && |p.prev| == |logs|
    requires forall s :: 0 <= s < |logs| ==> n[s] <= |logs[s]|
  {
    forall s, k :: 0 <= s < |logs| ==>
      LastUser(logs[s], n[s], me, k) == if k in p.prev[s] then Some(p.prev[s][k]) else None
  }

  ghost predicate MetaOk(logs: seq<Log>, shards: map<Vertex, set<nat>>, me: nat, n: seq<nat>, p: Parse, stream: seq<GraphInfo>)
    requires |n| == |logs|
  {
    && (forall t :: t in p.meta ==> t in shards && p.meta[t] == TxnMetaData(shards[t], Collected(logs, n, me, t)))
    && (forall t :: t !in p.meta && t in shards ==> Collected(logs, n, me, t) == {} || Complete(t) in stream)
    && (forall t :: Complete(t) in stream ==> t in shards && Collected(logs, n, me, t) == shards[t] != {})
    && (forall t :: t in p.meta ==> Complete(t) !in stream && Collected(logs, n, me, t) != shards[t])
  }

  ghost predicate EdgesOk(logs: seq<Log>, me: nat, n: seq<nat>, stream: seq<GraphInfo>)
    requires |n| == |logs|
  {
    forall s: nat, i: nat, u, v :: s < |logs| && i < n[s] && LogEdge(logs[s], me, i, u, v) ==> Edge(u, v) in stream
  }

  ghost predicate ParseInv(logs: seq<Log>, shards: map<Vertex, set<nat>>, me: nat, n: seq<nat>, p: Parse, stream: seq<GraphInfo>) {
    && |n| == |logs| && |p.prev| == |logs|
    && (forall s :: 0 <= s < |logs| ==> n[s] <= |logs[s]|)
    && PrevOk(logs, me, n, p)
    && MetaOk(logs, shards, me, n, p, stream)
    && EdgesOk(logs, me, n, stream)
    && StreamOk(logs, me, stream)
  }

  lemma {:induction false} EdgesToContent(prev: map<int, Vertex>, keys: seq<int>, t: Vertex)
    ensures forall info :: info in EdgesTo(prev, keys, t) <==> info.Edge? && info.to == t && exists k :: k in keys && k in prev && prev[k] == info.from
  {
    if keys != [] {
      var rest, k := keys[..|keys| - 1], keys[|keys| - 1];
      EdgesToContent(prev, rest, t);
      assert keys == rest + [k];
    }
  }

  lemma StreamAppend(logs: seq<Log>, me: nat, stream: seq<GraphInfo>, info: GraphInfo)
    requires StreamOk(logs, me, stream)
    requires match info
             case Edge(u, v) => DepEdge(logs, me, u, v) && Complete(v) !in stream
             case Complete(v) => Complete(v) !in stream && forall u :: DepEdge(logs, me, u, v) ==> Edge(u, v) in stream
    ensures StreamOk(logs, me, stream + [info])
  {
    var t := stream + [info];
    forall j | 0 <= j < |t|
      ensures TimelyAt(logs, me, t, j)
    {
      assert t[..j] == stream[..j];
      if j < |stream| {
        assert TimelyAt(logs, me, stream, j);
      } else {
        assert stream[..j] == stream;
      }
    }
  }

  lemma {:induction false} StreamAppendEdges(logs: seq<Log>, me: nat, stream: seq<GraphInfo>, prev: map<int, Vertex>, keys: seq<int>, t: Vertex)
    requires StreamOk(logs, me, stream) && Complete(t) !in stream
    requires forall k :: k in keys && k in prev ==> DepEdge(logs, me, prev[k], t)
    ensures StreamOk(logs, me, stream + EdgesTo(prev, keys, t))
  {
    hide DepEdge, TimelyAt;
    if keys == [] {
      assert stream + EdgesTo(prev, keys, t) == stream;
    } else {
      var rest, k := keys[..|keys| - 1], keys[|keys| - 1];
      StreamAppendEdges(logs, me, stream, prev, rest, t);
      EdgesToContent(prev, rest, t);
      if k in prev {
        StreamAppend(logs, me, stream + EdgesTo(prev, rest, t), Edge(prev[k], t));
        assert stream + EdgesTo(prev, keys, t) == stream + EdgesTo(prev, rest, t) + [Edge(prev[k], t)];
      } else {
        assert EdgesTo(prev, keys, t) == EdgesTo(prev, rest, t);
      }
    }
  }

  lemma CollectedNext(logs: seq<Log>, n: seq<nat>, me: nat, s: nat, t: Vertex)
    requires |n| == |logs| && s < |logs| && n[s] < |logs[s]|
    ensures Collected(logs, n[s := n[s] + 1], me, t) ==
            Collected(logs, n, me, t) + if logs[s][n[s]].txnKey == t && me in logs[s][n[s]].shardIds then {s} else {}
  {
  }

  lemma CollectedNextAll(logs: seq<Log>, n: seq<nat>, me: nat, s: nat)
    requires |n| == |logs| && s < |logs| && n[s] < |logs[s]|
    ensures var m := logs[s][n[s]];
      forall t ::
        Collected(logs, n[s := n[s] + 1], me, t) ==
        if m.txnKey == t && me in m.shardIds then Collected(logs, n, me, t) + {s} else Collected(logs, n, me, t)
  {
  }

  // The transaction being parsed was not completed before: its own log had not
  // listed it yet.
  lemma NotYetComplete(logs: seq<Log>, shards: map<Vertex, set<nat>>, me: nat, n: seq<nat>, p: Parse, stream: seq<GraphInfo>, s: nat)
    requires WellFormed(logs, shards) && ParseInv(logs, shards, me, n, p, stream)
    requires s < |logs| && n[s] < |logs[s]|
    ensures s !in Collected(logs, n, me, logs[s][n[s]].txnKey)
    ensures Complete(logs[s][n[s]].txnKey) !in stream
  {
  }

  lemma SubsetOfSameSize<T>(a: set<T>, b: set<T>)
    requires a <= b
    ensures |a| == |b| <==> a == b
  {
    if a != b {
      var x :| x in b && x !in a;
      Subset(a, b, x);
    }
  }

  lemma CollectedBounded(logs: seq<Log>, shards: map<Vertex, set<nat>>, n: seq<nat>, me: nat, t: Vertex)
    requires WellFormed(logs, shards) && |n| == |logs| && t in shards
    ensures Collected(logs, n, me, t) <= shards[t]
  {
  }

  // What parsing the next transaction m of shard s's log adds to the stream
  // before the completion, if any: its edges.
  lemma EdgesAreDependencies(logs: seq<Log>, me: nat, n: seq<nat>, p: Parse, s: nat)
    requires |n| == |logs| && |p.prev| == |logs| && forall s :: 0 <= s < |logs| ==> n[s] <= |logs[s]|
    requires s < |logs| && n[s] < |logs[s]| && me in logs[s][n[s]].shardIds
    requires PrevOk(logs, me, n, p)
    ensures forall k :: k in logs[s][n[s]].localKeys && k in p.prev[s] ==> DepEdge(logs, me, p.prev[s][k], logs[s][n[s]].txnKey)
    ensures forall u, v :: LogEdge(logs[s], me, n[s], u, v) ==> Edge(u, v) in EdgesTo(p.prev[s], logs[s][n[s]].localKeys, logs[s][n[s]].txnKey)
  {
    var m := logs[s][n[s]];
    EdgesToContent(p.prev[s], m.localKeys, m.txnKey);
    forall k | k in m.localKeys && k in p.prev[s]
      ensures DepEdge(logs, me, p.prev[s][k], m.txnKey)
    {
      assert LastUser(logs[s], n[s], me, k) == Some(p.prev[s][k]);
      assert LogEdge(logs[s], me, n[s], p.prev[s][k], m.txnKey);
    }
  }

  lemma PrevNext(logs: seq<Log>, me: nat, n: seq<nat>, p: Parse, s: nat)
    requires |n| == |logs| && |p.prev| == |logs| && forall s :: 0 <= s < |logs| ==> n[s] <= |logs[s]|
    requires s < |logs| && n[s] < |logs[s]|
    requires PrevOk(logs, me, n, p)
    ensures PrevOk(logs, me, n[s := n[s] + 1], ParseTxn(p, me, s, logs[s][n[s]]).0)
  {
  }

  lemma EdgesNext(logs: seq<Log>, me: nat, n: seq<nat>, p: Parse, stream: seq<GraphInfo>, s: nat)
    requires |n| == |logs| && |p.prev| == |logs| && forall s :: 0 <= s < |logs| ==> n[s] <= |logs[s]|
    requires s < |logs| && n[s] < |logs[s]|
    requires PrevOk(logs, me, n, p) && EdgesOk(logs, me, n, stream)
    ensures var m := logs[s][n[s]];
      EdgesOk(logs, me, n[s := n[s] + 1], stream + if me in m.shardIds then EdgesTo(p.prev[s], m.localKeys, m.txnKey) else [])
  {
    var m := logs[s][n[s]];
    var n' := n[s := n[s] + 1];
    if me in m.shardIds {
      EdgesAreDependencies(logs, me, n, p, s);
    }
    forall s': nat, i: nat, u, v | s' < |logs| && i < n'[s'] && LogEdge(logs[s'], me, i, u, v)
      ensures Edge(u, v) in stream + if me in m.shardIds then EdgesTo(p.prev[s], m.localKeys, m.txnKey) else []
    {
      assert i < n[s'] || (s' == s && i == n[s]);
    }
  }

  // Once every shard involved has listed t, all its dependencies are known.
  lemma AllDependenciesSeen(logs: seq<Log>, shards: map<Vertex, set<nat>>, me: nat, n: seq<nat>, stream: seq<GraphInfo>, t: Vertex)
    requires WellFormed(logs, shards) && |n| == |logs| && EdgesOk(logs, me, n, stream)
    requires t in shards && Collected(logs, n, me, t) == shards[t]
    ensures forall u :: DepEdge(logs, me, u, t) ==> Edge(u, t) in stream
  {
  }

  // What parsing adds to the stream and to the table, in the terms of MetaOk.
  lemma ParseTxnShape(p: Parse, me: nat, s: nat, m: TxnMeta, stream: seq<GraphInfo>)
    requires s < |p.prev|
    ensures var (p', out) := ParseTxn(p, me, s, m);
      var done := me in m.shardIds && Collect(p, s, m).IsComplete();
      && (forall t :: Complete(t) in stream + out <==> Complete(t) in stream || (done && t == m.txnKey))
      && p'.meta == if me !in m.shardIds then p.meta else if done then p.meta - {m.txnKey} else p.meta[m.txnKey := Collect(p, s, m)]
  {
    EdgesToContent(p.prev[s], m.localKeys, m.txnKey);
  }

  lemma CollectNext(logs: seq<Log>, shards: map<Vertex, set<nat>>, me: nat, n: seq<nat>, p: Parse, stream: seq<GraphInfo>, s: nat)
    requires WellFormed(logs, shards) && ParseInv(logs, shards, me, n, p, stream)
    requires s < |logs| && n[s] < |logs[s]| && me in logs[s][n[s]].shardIds
    ensures var t := logs[s][n[s]].txnKey;
      var d := Collect(p, s, logs[s][n[s]]);
      && t in shards
      && d == TxnMetaData(shards[t], Collected(logs, n[s := n[s] + 1], me, t))
      && (d.IsComplete() <==> d.collected == shards[t])
  {
    hide PrevOk, EdgesOk, StreamOk, WellFormed, Seen;
    var t := logs[s][n[s]].txnKey;
    ListedIsKnown(logs, shards, s, n[s]);
    NotYetComplete(logs, shards, me, n, p, stream, s);
    CollectedNext(logs, n, me, s, t);
    CollectedBounded(logs, shards, n[s := n[s] + 1], me, t);
    SubsetOfSameSize(Collected(logs, n[s := n[s] + 1], me, t), shards[t]);
  }

  lemma MetaNext(logs: seq<Log>, shards: map<Vertex, set<nat>>, me: nat, n: seq<nat>, p: Parse, stream: seq<GraphInfo>, s: nat)
    requires WellFormed(logs, shards) && ParseInv(logs, shards, me, n, p, stream)
    requires s < |logs| && n[s] < |logs[s]|
    ensures var (p', out) := ParseTxn(p, me, s, logs[s][n[s]]);
      MetaOk(logs, shards, me, n[s := n[s] + 1], p', stream + out)
  {
    hide PrevOk, EdgesOk, StreamOk, WellFormed, Collected, ParseTxn, Collect;
    var m := logs[s][n[s]];
    var n' := n[s := n[s] + 1];
    ParseTxnShape(p, me, s, m, stream);
    NotYetComplete(logs, shards, me, n, p, stream, s);
    if me in m.shardIds {
      CollectNext(logs, shards, me, n, p, stream, s);
    }
    CollectedNextAll(logs, n, me, s);
  }

  // Parsing the next transaction of any shard's log keeps the invariant.
  lemma ParseTxnKeeps(logs: seq<Log>, shards: map<Vertex, set<nat>>, me: nat, n: seq<nat>, p: Parse, stream: seq<GraphInfo>, s: nat)
    requires WellFormed(logs, shards) && ParseInv(logs, shards, me, n, p, stream)
    requires s < |logs| && n[s] < |logs[s]|
    ensures var (p', out) := ParseTxn(p, me, s, logs[s][n[s]]);
      ParseInv(logs, shards, me, n[s := n[s] + 1], p', stream + out)
  {
    hide WellFormed, MetaOk, PrevOk, EdgesOk, StreamOk, LogEdge, DepEdge, Collected;
    var m := logs[s][n[s]];
    var n' := n[s := n[s] + 1];
    var (p', out) := ParseTxn(p, me, s, m);
    PrevNext(logs, me, n, p, s);
    EdgesNext(logs, me, n, p, stream, s);
    MetaNext(logs, shards, me, n, p, stream, s);
    if me in m.shardIds {
      var edges := EdgesTo(p.prev[s], m.localKeys, m.txnKey);
      EdgesAreDependencies(logs, me, n, p, s);
      NotYetComplete(logs, shards, me, n, p, stream, s);
      StreamAppendEdges(logs, me, stream, p.prev[s], m.localKeys, m.txnKey);
      if Collect(p, s, m).IsComplete() {
        CollectNext(logs, shards, me, n, p, stream, s);
        AllDependenciesSeen(logs, shards, me, n', stream + edges, m.txnKey);
        EdgesToContent(p.prev[s], m.localKeys, m.txnKey);
        StreamAppend(logs, me, stream + edges, Complete(m.txnKey));
        assert stream + out == stream + edges + [Complete(m.txnKey)];
        EdgesGrow(logs, me, n', stream + edges, stream + out);
      }
    } else {
      assert stream + out == stream;
    }
  }

  lemma ListedIsKnown(logs: seq<Log>, shards: map<Vertex, set<nat>>, s: nat, i: nat)
    requires WellFormed(logs, shards) && s < |logs| && i < |logs[s]|
    ensures logs[s][i].txnKey in shards && shards[logs[s][i].txnKey] == set x | x in logs[s][i].shardIds
  {
  }

  lemma EdgesGrow(logs: seq<Log>, me: nat, n: seq<nat>, stream: seq<GraphInfo>, stream': seq<GraphInfo>)
    requires |n| == |logs| && EdgesOk(logs, me, n, stream)
    requires forall info :: info in stream ==> info in stream'
    ensures EdgesOk(logs, me, n, stream')
  {
  }

  // ---------- when a transaction completes ----------

  ghost predicate Lists(log: Log, t: Vertex) {
    exists i :: 0 <= i < |log| && log[i].txnKey == t
  }

  // The logs of all these shards list the transaction.
  ghost predicate ListedByAll(logs: seq<Log>, involved: set<nat>, t: Vertex) {
    forall s :: s in involved ==> s < |logs| && Lists(logs[s], t)
  }

  ghost predicate Parsed(logs: seq<Log>, n: seq<nat>) {
    |n| == |logs| && forall s :: 0 <= s < |logs| ==> n[s] == |logs[s]|
  }

  // In logs that are parsed to their ends, whoever lists a transaction is collected.
  lemma CollectedWhenParsed(logs: seq<Log>, shards: map<Vertex, set<nat>>, me: nat, n: seq<nat>, t: Vertex)
    requires WellFormed(logs, shards) && Parsed(logs, n) && t in shards && me in shards[t]
    ensures Collected(logs, n, me, t) == shards[t] <==> ListedByAll(logs, shards[t], t)
  {
    CollectedBounded(logs, shards, n, me, t);
    forall s: nat | s < |logs| && Lists(logs[s], t)
      ensures Seen(logs[s], n[s], me, t)
    {
      var i :| 0 <= i < |logs[s]| && logs[s][i].txnKey == t;
      ListedIsKnown(logs, shards, s, i);
    }
    forall s: nat | s < |logs| && Seen(logs[s], n[s], me, t)
      ensures Lists(logs[s], t)
    {
      var i :| 0 <= i < n[s] && i < |logs[s]| && logs[s][i].txnKey == t && me in logs[s][i].shardIds;
    }
  }

  // Once the logs are parsed to their ends, exactly the transactions that involve me
  // and that all their shards list have been completed.
  lemma CompletesIffListed(logs: seq<Log>, shards: map<Vertex, set<nat>>, me: nat, n: seq<nat>, p: Parse, stream: seq<GraphInfo>, t: Vertex)
    requires WellFormed(logs, shards) && ParseInv(logs, shards, me, n, p, stream) && Parsed(logs, n)
    ensures Complete(t) in stream <==> t in shards && me in shards[t] && ListedByAll(logs, shards[t], t)
  {
    hide PrevOk, EdgesOk, StreamOk, ListedByAll, Collected, WellFormed, Parsed;
    if t in shards && me in shards[t] {
      CollectedWhenParsed(logs, shards, me, n, t);
    }
    if Complete(t) in stream {
      CollectedInvolveMe(logs, shards, me, n, t);
    }
  }

  lemma CollectedInvolveMe(logs: seq<Log>, shards: map<Vertex, set<nat>>, me: nat, n: seq<nat>, t: Vertex)
    requires WellFormed(logs, shards) && |n| == |logs| && t in shards && Collected(logs, n, me, t) != {}
    ensures me in shards[t]
  {
    var s :| s in Collected(logs, n, me, t);
    var i :| 0 <= i < n[s] && i < |logs[s]| && logs[s][i].txnKey == t && me in logs[s][i].shardIds;
    ListedIsKnown(logs, shards, s, i);
  }

  // Two transactions of one shard's log that share a key are connected by a
  // path of dependencies, whatever lies between them.
  lemma {:induction false} SharedKeyIsConnected(logs: seq<Log>, me: nat, s: nat, i: nat, j: nat, k: int)
    requires s < |logs| && i < j < |logs[s]|
    requires me in logs[s][i].shardIds && me in logs[s][j].shardIds
    requires k in logs[s][i].localKeys && k in logs[s][j].localKeys
    ensures Reaches(Dependencies(logs, me), logs[s][i].txnKey, logs[s][j].txnKey)
    decreases j
  {
    var g := Dependencies(logs, me);
    var log := logs[s];
    var h := LastUserPosition(log, i, j, me, k);
    assert LogEdge(log, me, j, log[h].txnKey, log[j].txnKey);
    DependencyArcs(logs, me);
    assert Arc(g, log[h].txnKey, log[j].txnKey);
    ReachEdge(g, log[h].txnKey, log[j].txnKey);
    if h > i {
      SharedKeyIsConnected(logs, me, s, i, h, k);
      ReachTrans(g, log[i].txnKey, log[h].txnKey, log[j].txnKey);
    }
  }

  lemma {:induction false} LastUserPosition(log: Log, i: nat, n: nat, me: nat, k: int) returns (h: nat)
    requires i < n <= |log| && me in log[i].shardIds && k in log[i].localKeys
    ensures i <= h < n && me in log[h].shardIds && k in log[h].localKeys
    ensures LastUser(log, n, me, k) == Some(log[h].txnKey)
  {
    h := n - 1;
    if !(me in log[h].shardIds && k in log[h].localKeys) {
      h := LastUserPosition(log, i, n - 1, me, k);
    }
  }
}
