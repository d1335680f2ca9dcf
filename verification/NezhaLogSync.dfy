/**
 NezhaService/NezhaReplica.cc: how a follower copies the leader's log.  The leader
 broadcasts slices of its log; a follower applies what follows on, keeps what comes
 too early or names a request it has not received, and drains the kept messages in
 order.  Messages may be delayed, repeated, reordered or overlap, and requests may
 arrive at any time.
 */
module NezhaLogSync {
  import opened Collections

  datatype Record = Record(txnKey: nat, deadline: nat)
  type Log = seq<Record>

  datatype Sync = Sync(viewId: nat, logIdStart: nat, txnKeys: seq<nat>, deadlineRanks: seq<nat>)

  // The position after the last one a message covers; ids start at 1.
  function End(m: Sync): nat {
    m.logIdStart + |m.txnKeys|
  }

  // m repeats the leader's log from its start position on.
  ghost predicate IsSlice(leader: Log, m: Sync) {
    && 1 <= m.logIdStart && |m.deadlineRanks| == |m.txnKeys| && End(m) <= |leader| + 1
    && forall i :: 0 <= i < |m.txnKeys| ==> leader[m.logIdStart - 1 + i] == Record(m.txnKeys[i], m.deadlineRanks[i])
  }

  lemma SliceOfLonger(leader: Log, more: Log, m: Sync)
    requires IsSlice(leader, m)
    ensures IsSlice(leader + more, m)
  {
  }

  // Messages that cover a log from its first position on, one after the other.
  ghost predicate Consecutive(sent: seq<Sync>) {
    forall i {:trigger StartOf(sent, i)} :: 0 <= i < |sent| ==> sent[i].logIdStart == StartOf(sent, i)
  }

  function StartOf(sent: seq<Sync>, i: nat): nat
    requires i <= |sent|
  {
    if i == 0 then 1 else End(sent[i - 1])
  }

  lemma ConsecutiveMore(sent: seq<Sync>, m: Sync)
    requires Consecutive(sent) && m.logIdStart == StartOf(sent, |sent|)
    ensures Consecutive(sent + [m])
  {
    forall i | 0 <= i < |sent + [m]|
      ensures (sent + [m])[i].logIdStart == StartOf(sent + [m], i)
    {
      assert StartOf(sent + [m], i) == StartOf(sent, i);
    }
  }

  // ---------- the leader ----------

  class LeaderLog {
    const viewId: nat
    var syncedLogList: Log
    var lastBroadcastSyncedLogId: nat
    ghost var sent: seq<Sync>

    // The messages sent so far are consecutive slices, none empty.
    ghost predicate Valid()
      reads this
    {
      && lastBroadcastSyncedLogId <= |syncedLogList|
      && (forall i :: 0 <= i < |sent| ==> IsSlice(syncedLogList, sent[i]) && sent[i].viewId == viewId && sent[i].txnKeys != [])
      && Consecutive(sent) && lastBroadcastSyncedLogId + 1 == StartOf(sent, |sent|)
    }

    constructor (viewId: nat)
      ensures Valid() && syncedLogList == [] && sent == [] && this.viewId == viewId
    {
      this.viewId, syncedLogList, lastBroadcastSyncedLogId, sent := viewId, [], 0, [];
    }

    method Append(r: Record)
      requires Valid()
      modifies this
      ensures Valid() && syncedLogList == old(syncedLogList) + [r] && sent == old(sent)
    {
      forall i | 0 <= i < |sent|
        ensures IsSlice(syncedLogList + [r], sent[i])
      {
        SliceOfLonger(syncedLogList, [r], sent[i]);
      }
      syncedLogList := syncedLogList + [r];
    }

    // The message to every other replica, if there is anything new.
    method BroadcastInterReplicaSync() returns (sync: seq<Sync>)
      requires Valid()
      modifies this`lastBroadcastSyncedLogId, this`sent
      ensures Valid() && sent == old(sent) + sync && lastBroadcastSyncedLogId == |syncedLogList|
      ensures |sync| == if |syncedLogList| == old(lastBroadcastSyncedLogId) then 0 else 1
    {
      var sz := |syncedLogList| - lastBroadcastSyncedLogId;
      if sz == 0 {
        return [];
      }
      var start := lastBroadcastSyncedLogId + 1;
      var txnKeys, deadlineRanks := [], [];
      for i: nat := start - 1 to |syncedLogList|
        invariant |txnKeys| == |deadlineRanks| == i - lastBroadcastSyncedLogId
        invariant forall j :: 0 <= j < |txnKeys| ==> syncedLogList[start - 1 + j] == Record(txnKeys[j], deadlineRanks[j])
      {
        txnKeys := txnKeys + [syncedLogList[i].txnKey];
        deadlineRanks := deadlineRanks + [syncedLogList[i].deadline];
      }
      sync := [Sync(viewId, start, txnKeys, deadlineRanks)];
      ConsecutiveMore(sent, sync[0]);
      sent := sent + sync;
      lastBroadcastSyncedLogId := |syncedLogList|;
    }
  }

  // Consecutive slices start at different positions.
  lemma {:induction false} StartsIncrease(sent: seq<Sync>, i: nat, j: nat)
    requires Consecutive(sent) && i < j < |sent|
    ensures End(sent[i]) <= sent[j].logIdStart
    decreases j
  {
    assert sent[j].logIdStart == StartOf(sent, j);
    if i < j - 1 {
      StartsIncrease(sent, i, j - 1);
    }
  }

  // ---------- the follower ----------

  ghost predicate UniqueStarts(ms: set<Sync>) {
    forall a, b :: a in ms && b in ms && a.logIdStart == b.logIdStart ==> a == b
  }

  // What a follower has done with a message: its records are in the log, or it is
  // kept under its start position.
  ghost predicate Accounted(m: Sync, next: nat, pending: map<nat, Sync>) {
    End(m) <= next || (m.logIdStart in pending && pending[m.logIdStart] == m)
  }

  // Every message received is applied or kept.
  ghost predicate Complete(received: set<Sync>, next: nat, pending: map<nat, Sync>) {
    && (forall s :: s in pending ==> pending[s] in received)
    && (forall m :: m in received ==> Accounted(m, next, pending))
  }

  lemma CompleteGrows(received: set<Sync>, next: nat, next': nat, pending: map<nat, Sync>)
    requires next <= next'
    ensures Complete(received, next, pending) ==> Complete(received, next', pending)
  {
  }

  lemma CompleteWithout(received: set<Sync>, next: nat, pending: map<nat, Sync>, s: nat)
    requires s in pending && End(pending[s]) <= next
    ensures Complete(received, next, pending) ==> Complete(received, next, pending - {s})
  {
  }

  lemma NothingStuck(next: nat, known: set<nat>)
    ensures Stuck(map[], next, known)
  {
  }

  lemma FirstKept(pending: map<nat, Sync>, s: nat)
    requires IsLeast(pending.Keys, s)
    ensures s in pending
  {
  }

  lemma StuckAt(pending: map<nat, Sync>, next: nat, known: set<nat>, s: nat)
    requires IsLeast(pending.Keys, s) && (next < s || IsMissing(pending[s], next, known))
    ensures Stuck(pending, next, known)
  {
  }

  // Only messages that are in the log have been dropped.
  ghost predicate Drained(before: map<nat, Sync>, after: map<nat, Sync>, next: nat) {
    && (forall s :: s in after ==> s in before && after[s] == before[s])
    && (forall s :: s in before && s !in after ==> End(before[s]) <= next)
  }

  lemma DrainedNone(pending: map<nat, Sync>, next: nat)
    ensures Drained(pending, pending, next)
  {
  }

  lemma DrainedGrows(before: map<nat, Sync>, after: map<nat, Sync>, next: nat, next': nat, s: nat)
    requires Drained(before, after, next) && next <= next' && s in after
    ensures Drained(before, after, next')
    ensures End(after[s]) <= next' ==> Drained(before, after - {s}, next')
  {
  }

  // The first kept message, in order of start position, cannot be applied now.
  ghost predicate Stuck(pending: map<nat, Sync>, next: nat, known: set<nat>) {
    forall s :: IsLeast(pending.Keys, s) ==> next < s || IsMissing(pending[s], next, known)
  }

  // The message's record at position next names a request that has not arrived.
  ghost predicate IsMissing(m: Sync, next: nat, known: set<nat>) {
    m.logIdStart <= next < End(m) && m.txnKeys[next - m.logIdStart] !in known
  }

  class FollowerLog {
    const viewId: nat
    var nextSyncedLogId: nat
    var syncedLogList: Log
    var pendingInterReplicaSyncs: map<nat, Sync>
    var entryMap: set<nat>
    ghost var leader: Log
    ghost var received: set<Sync>

    // The log is a prefix of the leader's, whatever has been received.
    ghost predicate Valid()
      reads this
    {
      && syncedLogList <= leader && nextSyncedLogId == |syncedLogList| + 1
      && (forall s :: s in pendingInterReplicaSyncs ==> IsSlice(leader, pendingInterReplicaSyncs[s]) && pendingInterReplicaSyncs[s].logIdStart == s)
    }

    constructor (viewId: nat)
      ensures Valid() && leader == [] && syncedLogList == [] && this.viewId == viewId && received == {}
    {
      this.viewId, nextSyncedLogId, syncedLogList := viewId, 1, [];
      pendingInterReplicaSyncs, entryMap, leader, received := map[], {}, [], {};
    }

    // A request arrives from a client.
    method OnRequest(txnKey: nat)
      requires Valid()
      modifies this`entryMap
      ensures Valid() && entryMap == old(entryMap) + {txnKey}
    {
      entryMap := entryMap + {txnKey};
    }

    // Applies what follows on, up to the first request that is missing.
    method ProcessInterReplicaSync(req: Sync) returns (okay: bool)
      requires Valid() && IsSlice(leader, req) && req.logIdStart <= nextSyncedLogId
      modifies this`nextSyncedLogId, this`syncedLogList
      ensures Valid() && old(syncedLogList) <= syncedLogList && old(nextSyncedLogId) <= nextSyncedLogId
      ensures okay ==> nextSyncedLogId == if End(req) < old(nextSyncedLogId) then old(nextSyncedLogId) else End(req)
      ensures !okay ==> IsMissing(req, nextSyncedLogId, entryMap)
    {
      for i: nat := 0 to |req.txnKeys|
        invariant Valid() && old(syncedLogList) <= syncedLogList
        invariant nextSyncedLogId == if req.logIdStart + i < old(nextSyncedLogId) then old(nextSyncedLogId) else req.logIdStart + i
      {
        if req.logIdStart + i >= nextSyncedLogId {
          var txnKey := req.txnKeys[i];
          if txnKey !in entryMap {
            return false;
          }
          nextSyncedLogId := nextSyncedLogId + 1;
          syncedLogList := syncedLogList + [Record(txnKey, req.deadlineRanks[i])];
        }
      }
      return true;
    }

    // begin() of the pending map.
    method Begin() returns (s: nat)
      requires pendingInterReplicaSyncs != map[]
      ensures IsLeast(pendingInterReplicaSyncs.Keys, s)
    {
      LeastExists(pendingInterReplicaSyncs.Keys);
      s :| s in pendingInterReplicaSyncs && IsLeast(pendingInterReplicaSyncs.Keys, s);
    }

    ghost predicate AllAccounted()
      reads this
    {
      Complete(received, nextSyncedLogId, pendingInterReplicaSyncs)
    }

    // The drain ends, and only when the first kept message has to wait.
    method ProcessPendingInterReplicaSync()
      requires Valid()
      modifies this`nextSyncedLogId, this`syncedLogList, this`pendingInterReplicaSyncs
      ensures Valid() && old(syncedLogList) <= syncedLogList
      ensures Stuck(pendingInterReplicaSyncs, nextSyncedLogId, entryMap)
      ensures Drained(old(pendingInterReplicaSyncs), pendingInterReplicaSyncs, nextSyncedLogId)
      ensures old(AllAccounted()) ==> AllAccounted()
    {
      hide IsSlice, Complete, IsMissing, Stuck, Drained, IsLeast;
      DrainedNone(pendingInterReplicaSyncs, nextSyncedLogId);
      while pendingInterReplicaSyncs != map[]
        invariant Valid() && old(syncedLogList) <= syncedLogList
        invariant Drained(old(pendingInterReplicaSyncs), pendingInterReplicaSyncs, nextSyncedLogId)
        invariant old(AllAccounted()) ==> AllAccounted()
        decreases |pendingInterReplicaSyncs|
      {
        var s := Begin();
        FirstKept(pendingInterReplicaSyncs, s);
        if nextSyncedLogId < s {
          StuckAt(pendingInterReplicaSyncs, nextSyncedLogId, entryMap, s);
          break;
        }
        ghost var next := nextSyncedLogId;
        var okay := ProcessInterReplicaSync(pendingInterReplicaSyncs[s]);
        CompleteGrows(received, next, nextSyncedLogId, pendingInterReplicaSyncs);
        DrainedGrows(old(pendingInterReplicaSyncs), pendingInterReplicaSyncs, next, nextSyncedLogId, s);
        if !okay {
          StuckAt(pendingInterReplicaSyncs, nextSyncedLogId, entryMap, s);
          break;
        }
        CompleteWithout(received, nextSyncedLogId, pendingInterReplicaSyncs, s);
        pendingInterReplicaSyncs := pendingInterReplicaSyncs - {s};
      }
      if pendingInterReplicaSyncs == map[] {
        NothingStuck(nextSyncedLogId, entryMap);
      }
    }

    // A message arrives; leaderNow is the leader's log by then.
    method OnInterReplicaSync(req: Sync, ghost leaderNow: Log)
      requires Valid() && leader <= leaderNow && (req.viewId == viewId ==> IsSlice(leaderNow, req))
      modifies this`nextSyncedLogId, this`syncedLogList, this`pendingInterReplicaSyncs, this`leader, this`received
      ensures Valid() && leader == leaderNow && old(syncedLogList) <= syncedLogList
      ensures received == if req.viewId == viewId then old(received) + {req} else old(received)
      ensures req.viewId == viewId ==> Stuck(pendingInterReplicaSyncs, nextSyncedLogId, entryMap)
      ensures old(AllAccounted()) && UniqueStarts(received) ==> AllAccounted()
    {
      FollowLeader(leaderNow);
      if req.viewId != viewId {
        return;
      }
      Receive(req);
      ProcessPendingInterReplicaSync();
    }

    ghost method FollowLeader(leaderNow: Log)
      requires Valid() && leader <= leaderNow
      modifies this`leader
      ensures Valid() && leader == leaderNow
    {
      forall s | s in pendingInterReplicaSyncs
        ensures IsSlice(leaderNow, pendingInterReplicaSyncs[s])
      {
        assert leaderNow == leader + leaderNow[|leader|..];
        SliceOfLonger(leader, leaderNow[|leader|..], pendingInterReplicaSyncs[s]);
      }
      leader := leaderNow;
    }

    method Receive(req: Sync)
      requires Valid() && IsSlice(leader, req)
      modifies this`nextSyncedLogId, this`syncedLogList, this`pendingInterReplicaSyncs, this`received
      ensures Valid() && old(syncedLogList) <= syncedLogList && received == old(received) + {req}
      ensures pendingInterReplicaSyncs ==
              if old(nextSyncedLogId) < req.logIdStart || (nextSyncedLogId < End(req) && req.logIdStart !in old(pendingInterReplicaSyncs))
              then old(pendingInterReplicaSyncs)[req.logIdStart := req] else old(pendingInterReplicaSyncs)
      ensures nextSyncedLogId < End(req) && req.logIdStart <= old(nextSyncedLogId) ==> IsMissing(req, nextSyncedLogId, entryMap)
      ensures old(AllAccounted()) && UniqueStarts(received) ==> AllAccounted()
    {
      received := received + {req};
      if nextSyncedLogId < req.logIdStart {
        pendingInterReplicaSyncs := pendingInterReplicaSyncs[req.logIdStart := req];
      } else {
        var okay := ProcessInterReplicaSync(req);
        if !okay && req.logIdStart !in pendingInterReplicaSyncs {
          pendingInterReplicaSyncs := pendingInterReplicaSyncs[req.logIdStart := req];
        }
      }
    }
  }

  // ---------- catching up ----------

  // The position next, if it has been sent, lies in one of the messages.
  lemma {:induction false} SentAt(sent: seq<Sync>, k: nat, next: nat) returns (i: nat)
    requires k < |sent| && 1 <= next < End(sent[k])
    requires Consecutive(sent)
    ensures i < |sent| && sent[i].logIdStart <= next < End(sent[i])
    decreases k
  {
    assert sent[k].logIdStart == StartOf(sent, k);
    if sent[k].logIdStart <= next {
      i := k;
    } else {
      i := SentAt(sent, k - 1, next);
    }
  }

  // With all requests at hand nothing but a gap keeps a message waiting.
  lemma OnlyGaps(pending: map<nat, Sync>, next: nat, known: set<nat>)
    requires Stuck(pending, next, known) && pending != map[]
    requires forall s, i :: s in pending && 0 <= i < |pending[s].txnKeys| ==> pending[s].txnKeys[i] in known
    ensures forall s :: s in pending ==> next < s
  {
    LeastExists(pending.Keys);
    var s :| IsLeast(pending.Keys, s);
  }

  // Once the follower has all of the leader's messages and all requests they name,
  // in whatever order, its log has everything the leader has sent.
  lemma CaughtUp(sent: seq<Sync>, received: set<Sync>, next: nat, pending: map<nat, Sync>, known: set<nat>)
    requires Consecutive(sent) && sent != [] && forall i :: 0 <= i < |sent| ==> sent[i] in received
    requires Complete(received, next, pending) && Stuck(pending, next, known) && next >= 1
    requires forall m, i :: m in received && 0 <= i < |m.txnKeys| ==> m.txnKeys[i] in known
    ensures End(sent[|sent| - 1]) <= next
  {
    hide Stuck, Consecutive;
    if next < End(sent[|sent| - 1]) {
      var i := SentAt(sent, |sent| - 1, next);
      assert Accounted(sent[i], next, pending);
      OnlyGaps(pending, next, known);
    }
  }

  // The leader's messages have different start positions, as the follower's map
  // needs in order to lose none.
  lemma SentAreUnique(sent: seq<Sync>)
    requires Consecutive(sent) && forall i :: 0 <= i < |sent| ==> sent[i].txnKeys != []
    ensures UniqueStarts(set m | m in sent)
  {
    hide Consecutive;
    forall i, j | 0 <= i < |sent| && 0 <= j < |sent| && sent[i].logIdStart == sent[j].logIdStart
      ensures i == j
    {
      if i < j {
        StartsIncrease(sent, i, j);
      } else if j < i {
        StartsIncrease(sent, j, i);
      }
    }
  }
}
