/**
 NezhaService/NezhaReplica.cc: a follower's two threads.  One lets requests through
 to the execution queue, the other takes them from it in order and keeps the hashes.
 Shown: what the second one needs, that an entry's deadline is above those it has
 queued for the entry's keys, follows from what the first one lets through.
 */
module NezhaFollower {
  import opened Collections
  import opened NezhaHashes
  import Hold = NezhaHoldRelease

  // Whatever is queued for a key has been released for it.
  ghost predicate QueuedFrom(qus: map<Key, Queue>, released: seq<Hold.LogEntry>) {
    forall k, q :: q in QueueOf(qus, k) ==> Hold.ReleasedAt(released, k, q.deadline)
  }

  // The next entry of the execution queue is new for each of its keys.
  lemma NextIsNew(qus: map<Key, Queue>, toExec: seq<Hold.LogEntry>, n: nat, own: Hash, k: Key)
    requires Hold.DeadlinesIncrease(toExec) && n < |toExec| && QueuedFrom(qus, toExec[..n]) && k in toExec[n].keys
    ensures IsNew(QueueOf(qus, k), LogEntry(toExec[n].deadline, toExec[n].txnKey, own))
  {
    var qu := QueueOf(qus, k);
    if qu != [] {
      var q := qu[|qu| - 1];
      assert q in qu;
      assert Hold.ReleasedAt(toExec[..n], k, q.deadline);
      var i :| 0 <= i < n && k in toExec[..n][i].keys && toExec[..n][i].deadline == q.deadline;
      assert toExec[..n][i] == toExec[i];
    }
  }

  // What an entry does to the queues adds nothing but the entry, for its keys.
  lemma QueuedNext(qus: map<Key, Queue>, qus': map<Key, Queue>, toExec: seq<Hold.LogEntry>, n: nat)
    requires n < |toExec| && QueuedFrom(qus, toExec[..n])
    requires forall k, q :: q in QueueOf(qus', k) ==> q in QueueOf(qus, k) || (k in toExec[n].keys && q.deadline == toExec[n].deadline)
    ensures QueuedFrom(qus', toExec[..n + 1])
  {
    hide QueueOf;
    forall k, q | q in QueueOf(qus', k)
      ensures Hold.ReleasedAt(toExec[..n + 1], k, q.deadline)
    {
      if q in QueueOf(qus, k) {
        assert Hold.ReleasedAt(toExec[..n], k, q.deadline);
        var i :| 0 <= i < n && k in toExec[..n][i].keys && toExec[..n][i].deadline == q.deadline;
        assert toExec[..n + 1][i] == toExec[..n][i];
      } else {
        assert toExec[..n + 1][n] == toExec[n];
      }
    }
  }

  lemma {:induction false} AboveOnly(qu: Queue, d: nat)
    ensures forall q :: q in Above(qu, d) ==> q in qu
  {
    if qu != [] && qu[0].deadline <= d {
      AboveOnly(qu[1..], d);
    }
  }

  lemma PushedOnly(qu: Queue, e: LogEntry, d: nat, q: QuEntry)
    requires q in qu + [Behind(qu, e)] || q in Above(qu + [Behind(qu, e)], d)
    ensures q in qu || q.deadline == e.deadline
  {
    AboveOnly(qu + [Behind(qu, e)], d);
  }

  lemma KeysUpTo(keys: seq<Key>, n: nat, k: Key)
    requires n <= |keys|
    ensures k in keys[..n] || (n < |keys| && k == keys[n]) ==> k in keys && k in KeySet(keys)
    ensures k in keys[..if n < |keys| then n + 1 else n] <==> k in keys[..n] || (n < |keys| && k == keys[n])
  {
    if n < |keys| {
      assert keys[..n + 1] == keys[..n] + [keys[n]];
    }
  }

  lemma ReleasedStays(released: seq<Hold.LogEntry>, more: seq<Hold.LogEntry>, n: nat)
    requires n <= |released| <= |more| && more[..|released|] == released
    ensures more[..n] == released[..n]
  {
  }

  class Follower {
    const buffer: Hold.HoldBuffer
    const queues: FollowerQueues
    var processed: nat  // entries taken from the execution queue

    ghost predicate Valid()
      reads this, buffer, queues
    {
      && buffer.InOrder() && Hold.DeadlinesIncrease(buffer.toExecQu)
      && queues.Valid()
      && processed <= |buffer.toExecQu|
      && QueuedFrom(queues.unSyncedEntries, buffer.toExecQu[..processed])
    }

    constructor (keys: set<Key>)
      ensures Valid() && fresh(buffer) && fresh(queues) && processed == 0
      ensures buffer.toExecQu == [] && buffer.lastReleasedTxnDeadlines.Keys == keys
    {
      buffer := new Hold.HoldBuffer(keys);
      queues := new FollowerQueues();
      processed := 0;
    }

    // A request arrives.
    method Arrive(deadline: nat, txnKey: nat, keys: set<Key>) returns (enters: bool)
      requires Valid() && keys <= buffer.lastReleasedTxnDeadlines.Keys
      modifies buffer
      ensures Valid() && buffer.lastReleasedTxnDeadlines.Keys == old(buffer.lastReleasedTxnDeadlines.Keys)
      ensures enters == forall k :: k in keys ==> old(buffer.lastReleasedTxnDeadlines[k]) < deadline
      ensures buffer.toExecQu == old(buffer.toExecQu) + if enters then [Hold.LogEntry(deadline, txnKey, keys)] else []
    {
      enters := buffer.PassOrDrop(deadline, txnKey, keys);
      ReleasedStays(old(buffer.toExecQu), buffer.toExecQu, processed);
    }

    // The next entry of the execution queue, with its own hash and its keys in order.
    method ProcessNext(own: Hash, keys: seq<Key>, items: map<Key, SyncedHashItem>) returns (n: nat, refined: map<Key, Hash>)
      requires Valid() && processed < |buffer.toExecQu|
      requires Distinct(keys) && KeySet(keys) == buffer.toExecQu[processed].keys && forall k :: k in keys ==> k in items
      modifies this`processed, queues
      ensures Valid() && processed == old(processed) + 1
      ensures var e := LogEntry(buffer.toExecQu[old(processed)].deadline, buffer.toExecQu[old(processed)].txnKey, own);
        BreaksAt(e, keys, items, n)
      ensures forall k :: k in keys[..n] ==>
                k in refined && k in items && refined[k] == Xor(items[k].acc, Fold(Owns(QueueOf(queues.unSyncedEntries, k))))
    {
      hide Chained, Increasing, Xor, Fold, IsNew, QueueOf, Above, BelowSync;
      ghost var toExec := buffer.toExecQu;
      var next := buffer.toExecQu[processed];
      var e := LogEntry(next.deadline, next.txnKey, own);
      forall k | k in keys
        ensures IsNew(QueueOf(queues.unSyncedEntries, k), e)
      {
        assert k in KeySet(keys);
        NextIsNew(queues.unSyncedEntries, toExec, processed, own, k);
      }
      n, refined := queues.FollowerExecute(e, keys, items);
      forall k, q | q in QueueOf(queues.unSyncedEntries, k)
        ensures q in QueueOf(old(queues.unSyncedEntries), k) || (k in next.keys && q.deadline == next.deadline)
      {
        ghost var qu := QueueOf(old(queues.unSyncedEntries), k);
        KeysUpTo(keys, n, k);
        if k in keys[..n] {
          PushedOnly(qu, e, items[k].deadline, q);
        } else if n < |keys| && k == keys[n] {
          PushedOnly(qu, e, 0, q);
        }
      }
      QueuedNext(old(queues.unSyncedEntries), queues.unSyncedEntries, toExec, processed);
      processed := processed + 1;
    }
  }
}
