/**
 NezhaService/NezhaReplica.cc: what the per-key queues of hashes hold after any
 sequence of entries: at the leader every entry of the key, at a follower those that
 no sync point has overtaken.
 */
module NezhaHashRuns {
  import opened NezhaHashes

  // The queue entry stands for the log entry.
  ghost predicate StandsFor(q: QuEntry, e: LogEntry) {
    q.deadline == e.deadline && q.txnKey == e.txnKey && q.own == e.own
  }

  // ---------- the leader ----------

  datatype Executed = Executed(e: LogEntry, keys: set<Key>)

  // The queue of key k after these entries.
  ghost function LeaderQueue(es: seq<Executed>, k: Key): Queue {
    if es == [] then []
    else
      var qu := LeaderQueue(es[..|es| - 1], k);
      var last := es[|es| - 1];
      if k in last.keys then qu + [Behind(qu, last.e)] else qu
  }

  // The entries that have the key.
  function EntriesOf(es: seq<Executed>, k: Key): seq<LogEntry> {
    if es == [] then []
    else EntriesOf(es[..|es| - 1], k) + if k in es[|es| - 1].keys then [es[|es| - 1].e] else []
  }

  function OwnHashes(es: seq<LogEntry>): (hs: seq<Hash>)
    ensures |hs| == |es| && forall i :: 0 <= i < |es| ==> hs[i] == es[i].own
  {
    seq(|es|, i requires 0 <= i < |es| => es[i].own)
  }

  // The leader's queue for a key holds the key's entries in order, and the last
  // accumulated hash is that of all their own hashes.
  lemma {:induction false} LeaderHoldsAll(es: seq<Executed>, k: Key)
    ensures var qu := LeaderQueue(es, k); var own := EntriesOf(es, k);
      && |qu| == |own| && (forall i :: 0 <= i < |qu| ==> StandsFor(qu[i], own[i]))
      && Accumulated(qu)
      && (qu != [] ==> qu[|qu| - 1].acc == Fold(OwnHashes(own)))
  {
    hide Accumulated, Fold, Xor;
    var qu, own := LeaderQueue(es, k), EntriesOf(es, k);
    if es == [] {
      NothingAccumulated();
    } else {
      var before := LeaderQueue(es[..|es| - 1], k);
      LeaderHoldsAll(es[..|es| - 1], k);
      if k in es[|es| - 1].keys {
        AccumulatedMore(before, es[|es| - 1].e);
      }
    }
    if qu != [] {
      assert Owns(qu) == OwnHashes(own);
      LastAccumulated(qu);
    }
  }

  lemma NothingAccumulated()
    ensures Accumulated([])
  {
  }

  lemma LastAccumulated(qu: Queue)
    requires Accumulated(qu) && qu != []
    ensures qu[|qu| - 1].acc == Fold(Owns(qu))
  {
    assert Owns(qu)[..|qu|] == Owns(qu);
  }

  // ---------- a follower ----------

  // An entry that goes through the queue of a key, and the sync point it meets there.
  datatype Visit = Visit(e: LogEntry, item: SyncedHashItem)

  ghost function QueueAfter(vs: seq<Visit>): Queue {
    if vs == [] then [] else NewQueue(QueueAfter(vs[..|vs| - 1]), vs[|vs| - 1].e, vs[|vs| - 1].item)
  }

  // As the hold buffer lets them through.
  ghost predicate InOrder(vs: seq<Visit>) {
    forall i, j :: 0 <= i < j < |vs| ==> vs[i].e.deadline < vs[j].e.deadline
  }

  // The sync point met by visit j, which is below the entry, has reached this deadline.
  ghost predicate Overtakes(v: Visit, deadline: nat) {
    deadline <= v.item.deadline < v.e.deadline
  }

  ghost predicate Overtaken(vs: seq<Visit>, i: nat)
    requires i < |vs|
  {
    exists j :: i <= j < |vs| && Overtakes(vs[j], vs[i].e.deadline)
  }

  ghost predicate IsQueued(vs: seq<Visit>, q: QuEntry) {
    exists i :: 0 <= i < |vs| && StandsFor(q, vs[i].e) && !Overtaken(vs, i)
  }

  // Everything queued is an entry that has not been overtaken; every such entry is queued.
  ghost predicate OnlyUnsynced(vs: seq<Visit>, qu: Queue) {
    forall q :: q in qu ==> IsQueued(vs, q)
  }

  ghost predicate AllUnsynced(vs: seq<Visit>, qu: Queue) {
    forall i :: 0 <= i < |vs| && !Overtaken(vs, i) ==> Holds(qu, vs[i].e)
  }

  ghost predicate Holds(qu: Queue, e: LogEntry) {
    exists q :: q in qu && StandsFor(q, e)
  }

  // What is in the queue is an entry that has not been overtaken, and every such entry
  // is in it; the queue is in order and its accumulated hashes are chained.
  lemma {:induction false} FollowerHoldsUnsynced(vs: seq<Visit>)
    requires InOrder(vs)
    ensures var qu := QueueAfter(vs);
      && Chained(qu) && Increasing(qu) && OnlyUnsynced(vs, qu) && AllUnsynced(vs, qu)
  {
    if vs == [] {
      EmptyShape();
    } else {
      FollowerHoldsUnsynced(vs[..|vs| - 1]);
      VisitKeeps(vs[..|vs| - 1], vs[|vs| - 1]);
      assert vs == vs[..|vs| - 1] + [vs[|vs| - 1]];
    }
  }

  lemma OvertakenMore(vs: seq<Visit>, v: Visit, i: nat)
    requires i < |vs|
    ensures Overtaken(vs + [v], i) <==> Overtaken(vs, i) || Overtakes(v, vs[i].e.deadline)
  {
    var more := vs + [v];
    assert more[|vs|] == v;
    if Overtaken(vs, i) {
      var j :| i <= j < |vs| && Overtakes(vs[j], vs[i].e.deadline);
      assert more[j] == vs[j];
    }
  }

  // The entry of a visit is not overtaken by its own sync point.
  lemma LastIsNotOvertaken(vs: seq<Visit>, v: Visit)
    ensures !Overtaken(vs + [v], |vs|)
  {
  }

  lemma InSuffix(qu: Queue, d: nat)
    requires Increasing(qu) && Chained(qu)
    ensures Increasing(Above(qu, d)) && Chained(Above(qu, d))
  {
    hide Xor, Increasing, Chained;
    AboveIsExact(qu, d);
    SuffixShape(qu, |qu| - |Above(qu, d)|);
  }

  // A visit pushes the entry and, if the sync point is below it, pops what the sync
  // point has reached.
  lemma VisitShape(qu: Queue, v: Visit)
    requires Chained(qu) && Increasing(qu) && IsNew(qu, v.e)
    ensures var qu' := NewQueue(qu, v.e, v.item);
      && Chained(qu') && Increasing(qu')
      && forall q :: q in qu' <==> (q in qu || q == Behind(qu, v.e)) && !Overtakes(v, q.deadline)
  {
    hide Xor, Chained, Increasing, Above, Behind;
    PushShape(qu, v.e);
    var pushed := qu + [Behind(qu, v.e)];
    assert forall q :: q in pushed <==> q in qu || q == Behind(qu, v.e);
    if v.e.deadline <= v.item.deadline {
      assert NewQueue(qu, v.e, v.item) == pushed;
    } else {
      AboveIsExact(pushed, v.item.deadline);
      InSuffix(pushed, v.item.deadline);
      assert NewQueue(qu, v.e, v.item) == Above(pushed, v.item.deadline);
    }
  }

  lemma VisitIsNew(vs: seq<Visit>, v: Visit, qu: Queue)
    requires InOrder(vs + [v])
    requires OnlyUnsynced(vs, qu)
    ensures IsNew(qu, v.e)
  {
    if qu != [] {
      var q := qu[|qu| - 1];
      assert q in qu;
      var i :| 0 <= i < |vs| && StandsFor(q, vs[i].e);
      assert (vs + [v])[i] == vs[i] && (vs + [v])[|vs|] == v;
    }
  }

  lemma OnlyMore(vs: seq<Visit>, v: Visit, qu: Queue, qu': Queue)
    requires OnlyUnsynced(vs, qu) && forall q :: q in qu' ==> (q in qu || q == Behind(qu, v.e)) && !Overtakes(v, q.deadline)
    ensures OnlyUnsynced(vs + [v], qu')
  {
    hide Overtaken, Overtakes;
    var more := vs + [v];
    LastIsNotOvertaken(vs, v);
    LastStays(qu, v);
    forall q | q in qu'
      ensures IsQueued(more, q)
    {
      if q in qu {
        var i :| 0 <= i < |vs| && StandsFor(q, vs[i].e) && !Overtaken(vs, i);
        OvertakenMore(vs, v, i);
        assert more[i] == vs[i];
      } else {
        assert StandsFor(q, more[|vs|].e);
      }
    }
  }

  lemma AllMore(vs: seq<Visit>, v: Visit, qu: Queue, qu': Queue)
    requires AllUnsynced(vs, qu) && forall q :: (q in qu || q == Behind(qu, v.e)) && !Overtakes(v, q.deadline) ==> q in qu'
    ensures AllUnsynced(vs + [v], qu')
  {
    hide Overtaken, Overtakes;
    var more := vs + [v];
    LastStays(qu, v);
    forall i: nat | i < |more| && !Overtaken(more, i)
      ensures Holds(qu', more[i].e)
    {
      if i < |vs| {
        OvertakenMore(vs, v, i);
        var q :| q in qu && StandsFor(q, vs[i].e);
        assert q in qu';
      } else {
        assert Behind(qu, v.e) in qu';
      }
    }
  }

  lemma VisitKeeps(vs: seq<Visit>, v: Visit)
    requires InOrder(vs + [v])
    requires var qu := QueueAfter(vs); Chained(qu) && Increasing(qu) && OnlyUnsynced(vs, qu) && AllUnsynced(vs, qu)
    ensures var qu := QueueAfter(vs + [v]); Chained(qu) && Increasing(qu) && OnlyUnsynced(vs + [v], qu) && AllUnsynced(vs + [v], qu)
  {
    hide Chained, Increasing, Overtakes, NewQueue, OnlyUnsynced, AllUnsynced, InOrder;
    var qu := QueueAfter(vs);
    assert (vs + [v])[..|vs|] == vs;
    VisitIsNew(vs, v, qu);
    VisitShape(qu, v);
    OnlyMore(vs, v, qu, NewQueue(qu, v.e, v.item));
    AllMore(vs, v, qu, NewQueue(qu, v.e, v.item));
  }

  lemma LastStays(qu: Queue, v: Visit)
    ensures StandsFor(Behind(qu, v.e), v.e) && !Overtakes(v, Behind(qu, v.e).deadline)
  {
  }
}
