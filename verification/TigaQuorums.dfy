/**
 TigaEntity/TigaCoordinator.cc: what the quorum sizes and the bookkeeping of replies
 are for.  A fast quorum has a majority within every slow quorum, any two slow
 quorums meet, and neither can do with less; a quorum keeps, for each shard, the
 latest reply of each replica in the newest view heard of.
 */
module TigaQuorums {
  import opened Collections
  import opened TigaCoordinator

  // ---------- quorums of replicas ----------

  ghost function Range(lo: nat, hi: nat): (s: set<nat>)
    requires lo <= hi
    ensures |s| == hi - lo && forall i :: i in s <==> lo <= i < hi
    decreases hi - lo
  {
    if lo == hi then {} else Range(lo, hi - 1) + {hi - 1}
  }

  lemma Overlap(n: nat, a: set<nat>, b: set<nat>)
    requires forall i :: i in a || i in b ==> i < n
    ensures |a * b| >= |a| + |b| - n
  {
    SubsetSize(a + b, Range(0, n));
  }

  // Any two majorities meet.
  lemma SlowQuorumsMeet(n: nat, a: set<nat>, b: set<nat>)
    requires forall i :: i in a || i in b ==> i < n
    requires |a| >= SlowQuorumSize(n) && |b| >= SlowQuorumSize(n)
    ensures a * b != {}
  {
    Overlap(n, a, b);
  }

  // In every slow quorum more than half belong to a given fast quorum, so what the
  // fast quorum agreed on can be told from a slow one.
  lemma FastQuorumShows(n: nat, fast: set<nat>, slow: set<nat>)
    requires n > 0 && forall i :: i in fast || i in slow ==> i < n
    requires |fast| >= FastQuorumSize(n) && |slow| == SlowQuorumSize(n)
    ensures 2 * |fast * slow| > |slow|
  {
    Overlap(n, fast, slow);
    FastSizes(n);
  }

  lemma FastSizes(n: nat)
    requires n > 0
    ensures SlowQuorumSize(n) <= n && FastQuorumSize(n) <= n
    ensures 2 * (FastQuorumSize(n) + SlowQuorumSize(n) - n) > SlowQuorumSize(n)
  {
  }

  // Fast quorums of this size would do.
  ghost predicate Shows(n: nat, size: int) {
    forall fast: set<nat>, slow: set<nat> ::
      (forall i :: i in fast || i in slow ==> i < n) && |fast| >= size && |slow| == SlowQuorumSize(n) ==>
        2 * |fast * slow| > |slow|
  }

  // One replica less would do only in groups of an even number, from four on.
  lemma FastQuorumIsSmall(n: nat)
    requires n > 0
    ensures Shows(n, FastQuorumSize(n))
    ensures Shows(n, FastQuorumSize(n) - 1) <==> n % 2 == 0 && n >= 4
  {
    forall fast: set<nat>, slow: set<nat> | (forall i :: i in fast || i in slow ==> i < n) && |fast| >= FastQuorumSize(n) && |slow| == SlowQuorumSize(n)
      ensures 2 * |fast * slow| > |slow|
    {
      FastQuorumShows(n, fast, slow);
    }
    if n % 2 == 0 && n >= 4 {
      forall fast: set<nat>, slow: set<nat> | (forall i :: i in fast || i in slow ==> i < n) && |fast| >= FastQuorumSize(n) - 1 && |slow| == SlowQuorumSize(n)
        ensures 2 * |fast * slow| > |slow|
      {
        Overlap(n, fast, slow);
        EvenSizes(n);
      }
    } else {
      OneLess(n);
    }
  }

  lemma EvenSizes(n: nat)
    requires n % 2 == 0 && n >= 4
    ensures 2 * (FastQuorumSize(n) - 1 + SlowQuorumSize(n) - n) > SlowQuorumSize(n)
  {
  }

  lemma OneLess(n: nat)
    requires n > 0 && (n % 2 == 1 || n == 2)
    ensures !Shows(n, FastQuorumSize(n) - 1)
  {
    var f, s := FastQuorumSize(n) - 1, SlowQuorumSize(n);
    FastSizes(n);
    var fast, slow := Range(0, f), Range(n - s, n);
    assert fast * slow == if n - s <= f then Range(n - s, f) else {};
    assert 2 * |fast * slow| <= |slow|;
  }

  // Majorities cannot be smaller: two sets of one replica less need not meet.
  lemma SlowQuorumIsSmallest(n: nat)
    requires n > 0
    ensures exists a: set<nat>, b: set<nat> ::
              (forall i :: i in a || i in b ==> i < n) && |a| == |b| == SlowQuorumSize(n) - 1 && a * b == {}
  {
    var a, b := Range(0, n / 2), Range(n / 2, n / 2 * 2);
    assert a * b == {};
  }

  // ---------- what passes ----------

  // The replies of the shard come from its replicas.
  ghost predicate FromReplicas(q: Quorum, s: nat, replicaNum: nat)
    requires s < |q.fastReplies|
  {
    forall r :: r in q.fastReplies[s] ==> r < replicaNum
  }

  // This replica's reply is the leader's, or the replica has synced what it replied for.
  ghost predicate Agrees(leader: Reply, snap: Snapshot, rep: Reply) {
    || !rep.hasHash || rep.hash == leader.hash
    || ((rep.shardId, rep.replicaId) in snap.synced && snap.synced[(rep.shardId, rep.replicaId)] >= rep.logId)
    || rep.logId == 0
  }

  // This replica has synced the leader's entry, in the log or the speculative log.
  ghost predicate HasSynced(s: nat, leader: Reply, snap: Snapshot, r: nat) {
    || (leader.logId > 0 && (s, r) in snap.synced && snap.synced[(s, r)] >= leader.logId)
    || (leader.specLogId > 0 && (s, r) in snap.syncedSpec && snap.syncedSpec[(s, r)] >= leader.specLogId)
  }

  // A shard that passes has its leader's reply, and in every majority of its replicas
  // more than half have replied what the leader did, or one is the leader or has synced
  // the leader's entry.
  lemma PassedSurvives(q: Quorum, s: nat, replicaNum: nat, early: Snapshot, late: Snapshot, majority: set<nat>)
    requires s < |q.fastReplies| == |q.viewIds| && replicaNum > 0 && FromReplicas(q, s, replicaNum)
    requires ShardStatus(q, s, replicaNum, early, late) in {Fast, Slow}
    requires |majority| == replicaNum / 2 + 1 && forall r :: r in majority ==> r < replicaNum
    ensures var leader := q.viewIds[s] % replicaNum;
      && leader in q.fastReplies[s]
      && var agreeing := set r | r in majority && r in q.fastReplies[s] && Agrees(q.fastReplies[s][leader], early, q.fastReplies[s][r]);
        || 2 * |agreeing| > |majority|
        || leader in majority
        || exists r :: r in majority && HasSynced(s, q.fastReplies[s][leader], late, r)
  {
    var id := q.viewIds[s] % replicaNum;
    var leader := q.fastReplies[s][id];
    var fast := FastReplicas(q.fastReplies[s], leader, early);
    var agreeing := set r | r in majority && r in q.fastReplies[s] && Agrees(leader, early, q.fastReplies[s][r]);
    if ShardStatus(q, s, replicaNum, early, late) == Fast {
      FastQuorumShows(replicaNum, fast, majority);
      SubsetSize(fast * majority, agreeing);
    } else {
      var slow := SlowReplicas(s, id, leader, late, replicaNum);
      SlowQuorumsMeet(replicaNum, slow + {id}, majority);
      var r :| r in (slow + {id}) * majority;
      assert r == id || HasSynced(s, leader, late, r);
    }
  }

  // A shard all of whose replicas have replied what the leader did passes at once.
  lemma UnanimousPasses(q: Quorum, s: nat, replicaNum: nat, early: Snapshot, late: Snapshot)
    requires s < |q.fastReplies| == |q.viewIds| && replicaNum > 0
    requires forall r :: r in q.fastReplies[s] <==> 0 <= r < replicaNum
    requires forall r :: r in q.fastReplies[s] ==> !q.fastReplies[s][r].hasHash || q.fastReplies[s][r].hash == q.fastReplies[s][q.viewIds[s] % replicaNum].hash
    ensures ShardStatus(q, s, replicaNum, early, late) == Fast
  {
    var leader := q.fastReplies[s][q.viewIds[s] % replicaNum];
    SubsetSize(Range(0, replicaNum), FastReplicas(q.fastReplies[s], leader, early));
    FastSizes(replicaNum);
  }

  // So does one with its leader's reply, no reply that differs, and a majority, the
  // leader included, that has synced the leader's entry.
  lemma SyncedPasses(q: Quorum, s: nat, replicaNum: nat, early: Snapshot, late: Snapshot, synced: set<nat>)
    requires s < |q.fastReplies| == |q.viewIds| && replicaNum > 0 && q.viewIds[s] % replicaNum in q.fastReplies[s]
    requires forall r :: r in q.fastReplies[s] ==> !q.fastReplies[s][r].hasHash || q.fastReplies[s][r].hash == q.fastReplies[s][q.viewIds[s] % replicaNum].hash
    requires forall r :: r in synced ==> r < replicaNum && r != q.viewIds[s] % replicaNum && HasSynced(s, q.fastReplies[s][q.viewIds[s] % replicaNum], late, r)
    requires |synced| + 1 >= replicaNum / 2 + 1
    ensures ShardStatus(q, s, replicaNum, early, late) in {Fast, Slow}
  {
    var id := q.viewIds[s] % replicaNum;
    SubsetSize(synced, SlowReplicas(s, id, q.fastReplies[s][id], late, replicaNum));
  }

  // A shard starts over exactly when its leader has replied and another hash has come
  // from a replica that is known to be in a newer view.
  lemma NewerViewStartsOver(q: Quorum, s: nat, replicaNum: nat, early: Snapshot, late: Snapshot)
    requires s < |q.fastReplies| == |q.viewIds| && replicaNum > 0
    ensures ShardStatus(q, s, replicaNum, early, late) == Cleared <==>
              var id := q.viewIds[s] % replicaNum;
              id in q.fastReplies[s] && exists r :: r in q.fastReplies[s] && IsNewer(q.fastReplies[s][r], q.fastReplies[s][id], early, q.viewIds[s])
  {
    if HasLeader(q, s, replicaNum) {
      var leader := LeaderReply(q, s, replicaNum);
      assert forall r :: r in q.fastReplies[s] ==>
                           (Outdated(q, s, leader, early, q.fastReplies[s][r]) <==> IsNewer(q.fastReplies[s][r], leader, early, q.viewIds[s]));
    }
  }

  ghost predicate IsNewer(rep: Reply, leader: Reply, snap: Snapshot, view: nat) {
    && rep.hasHash && rep.hash != leader.hash
    && (rep.shardId, rep.replicaId) in snap.views && snap.views[(rep.shardId, rep.replicaId)] > view
  }

  // The leader's reply alone is not enough in a group of more than one.
  lemma LeaderAloneIsShort(q: Quorum, s: nat, replicaNum: nat, early: Snapshot, late: Snapshot)
    requires s < |q.fastReplies| == |q.viewIds| && replicaNum > 1
    requires q.fastReplies[s].Keys == {q.viewIds[s] % replicaNum}
    requires forall r :: 0 <= r < replicaNum ==> !HasSynced(s, q.fastReplies[s][q.viewIds[s] % replicaNum], late, r)
    ensures ShardStatus(q, s, replicaNum, early, late) !in {Fast, Slow}
  {
    var id := q.viewIds[s] % replicaNum;
    var leader := q.fastReplies[s][id];
    SubsetSize(FastReplicas(q.fastReplies[s], leader, early), {id});
    forall r: nat | r < replicaNum
      ensures !ValidSlow(s, leader, late, r)
    {
      assert !HasSynced(s, leader, late, r);
    }
    assert SlowReplicas(s, id, leader, late, replicaNum) == {};
  }

  // Reconciliation erases exactly the replies of the target shards' leaders that are
  // behind the agreed deadline.
  lemma OnlyLaggardsErased(q: Quorum, replicaNum: nat, agreed: nat, shards: set<nat>, q': Quorum, s: nat)
    requires s < |q.fastReplies| == |q.viewIds| && replicaNum > 0 && Reconciled(q, replicaNum, agreed, shards, q')
    ensures s < |q'.fastReplies|
    ensures forall r :: r in q'.fastReplies[s] <==>
                          r in q.fastReplies[s] && !(s in shards && r == q.viewIds[s] % replicaNum && q.fastReplies[s][r].deadline < agreed)
    ensures forall r :: r in q'.fastReplies[s] ==> q'.fastReplies[s][r] == q.fastReplies[s][r]
  {
  }

  // ---------- replies kept ----------

  ghost function AddAll(reps: seq<Reply>, coord: Coord, views: seq<nat>): (q: Quorum)
    requires reps != [] && forall rep :: rep in reps ==> rep.shardId < |views|
    ensures |q.fastReplies| == |q.viewIds| == |views|
  {
    if |reps| == 1 then NewQuorum(reps[0], coord, views)
    else Added(AddAll(reps[..|reps| - 1], coord, views), reps[|reps| - 1], coord)
  }

  // view is the newest of shard s that is known from the start or has been heard of.
  ghost predicate IsNewest(reps: seq<Reply>, start: nat, s: nat, view: nat) {
    && (forall rep :: rep in reps && rep.shardId == s ==> rep.viewId <= view)
    && start <= view && (view == start || exists rep :: rep in reps && rep.shardId == s && rep.viewId == view)
  }

  ghost predicate IsOf(rep: Reply, s: nat, r: nat, view: nat) {
    rep.shardId == s && rep.replicaId == r && rep.viewId == view
  }

  // rep is the last reply of replica r of shard s in this view.
  ghost predicate IsLast(reps: seq<Reply>, s: nat, r: nat, view: nat, rep: Reply) {
    exists i :: 0 <= i < |reps| && reps[i] == rep && IsOf(rep, s, r, view)
                && forall j :: i < j < |reps| ==> !IsOf(reps[j], s, r, view)
  }

  ghost predicate NoneOf(reps: seq<Reply>, s: nat, r: nat, view: nat) {
    forall i :: 0 <= i < |reps| ==> !IsOf(reps[i], s, r, view)
  }

  // What the quorum keeps for replica r of shard s.
  ghost predicate KeptFor(q: Quorum, reps: seq<Reply>, s: nat, r: nat)
    requires s < |q.fastReplies| == |q.viewIds|
  {
    if r in q.fastReplies[s] then IsLast(reps, s, r, q.viewIds[s], q.fastReplies[s][r])
    else NoneOf(reps, s, r, q.viewIds[s])
  }

  ghost predicate ShardKept(q: Quorum, reps: seq<Reply>, start: nat, s: nat)
    requires s < |q.fastReplies| == |q.viewIds|
  {
    IsNewest(reps, start, s, q.viewIds[s]) && forall r :: KeptFor(q, reps, s, r)
  }

  lemma LastMore(reps: seq<Reply>, rep: Reply, s: nat, r: nat, view: nat)
    ensures IsOf(rep, s, r, view) ==> IsLast(reps + [rep], s, r, view, rep)
    ensures !IsOf(rep, s, r, view) ==> forall x :: IsLast(reps, s, r, view, x) ==> IsLast(reps + [rep], s, r, view, x)
    ensures !IsOf(rep, s, r, view) && NoneOf(reps, s, r, view) ==> NoneOf(reps + [rep], s, r, view)
  {
    var more := reps + [rep];
    if IsOf(rep, s, r, view) {
      assert more[|reps|] == rep;
    } else {
      forall x | IsLast(reps, s, r, view, x)
        ensures IsLast(more, s, r, view, x)
      {
        var i :| 0 <= i < |reps| && reps[i] == x && IsOf(x, s, r, view) && forall j :: i < j < |reps| ==> !IsOf(reps[j], s, r, view);
        assert more[i] == x;
      }
    }
  }

  lemma NewestMore(reps: seq<Reply>, rep: Reply, start: nat, s: nat, view: nat)
    requires IsNewest(reps, start, s, view)
    ensures IsNewest(reps + [rep], start, s, if rep.shardId == s && rep.viewId > view then rep.viewId else view)
  {
    assert rep in reps + [rep];
    if x :| x in reps && x.shardId == s && x.viewId == view {
      assert x in reps + [rep];
    }
  }

  // Nobody has replied in a view that nobody has heard of.
  lemma NewerIsNew(reps: seq<Reply>, start: nat, s: nat, r: nat, view: nat, newer: nat)
    requires IsNewest(reps, start, s, view) && newer > view
    ensures NoneOf(reps, s, r, newer)
  {
    forall i | 0 <= i < |reps|
      ensures !IsOf(reps[i], s, r, newer)
    {
      assert reps[i] in reps;
    }
  }

  lemma AddedKeepsShard(q: Quorum, reps: seq<Reply>, rep: Reply, coord: Coord, start: nat, s: nat)
    requires s < |q.fastReplies| == |q.viewIds| && rep.shardId < |q.viewIds| && q.globalViewId == rep.gViewId
    requires ShardKept(q, reps, start, s)
    ensures ShardKept(Added(q, rep, coord), reps + [rep], start, s)
  {
    hide IsNewest, IsLast, NoneOf;
    var q' := Added(q, rep, coord);
    NewestMore(reps, rep, start, s, q.viewIds[s]);
    forall r: nat
      ensures KeptFor(q', reps + [rep], s, r)
    {
      assert KeptFor(q, reps, s, r);
      LastMore(reps, rep, s, r, q'.viewIds[s]);
      if q'.viewIds[s] > q.viewIds[s] {
        NewerIsNew(reps, start, s, r, q.viewIds[s], q'.viewIds[s]);
      }
    }
  }

  lemma FirstKept(rep: Reply, coord: Coord, views: seq<nat>, s: nat)
    requires rep.shardId < |views| && s < |views|
    ensures ShardKept(NewQuorum(rep, coord, views), [rep], views[rep.shardId := rep.viewId][s], s)
  {
    var q := NewQuorum(rep, coord, views);
    forall r: nat
      ensures KeptFor(q, [rep], s, r)
    {
      assert [rep][0] == rep;
    }
  }

  // After any replies of one global view a quorum knows the newest view of each shard,
  // and keeps exactly the last reply of each replica in it.
  lemma {:induction false} LatestAreKept(reps: seq<Reply>, coord: Coord, views: seq<nat>, s: nat)
    requires reps != [] && s < |views|
    requires forall rep :: rep in reps ==> rep.shardId < |views| && rep.gViewId == reps[0].gViewId
    ensures ShardKept(AddAll(reps, coord, views), reps, views[reps[0].shardId := reps[0].viewId][s], s)
    ensures AddAll(reps, coord, views).globalViewId == reps[0].gViewId && AddAll(reps, coord, views).coord == coord
  {
    hide ShardKept;
    if |reps| == 1 {
      FirstKept(reps[0], coord, views, s);
      assert reps == [reps[0]];
    } else {
      var front, rep := reps[..|reps| - 1], reps[|reps| - 1];
      assert reps == front + [rep];
      LatestAreKept(front, coord, views, s);
      AddedKeepsShard(AddAll(front, coord, views), front, rep, coord, views[reps[0].shardId := reps[0].viewId][s], s);
    }
  }

  // A reply of a newer global view leaves nothing else.
  lemma NewGlobalView(q: Quorum, rep: Reply, coord: Coord, s: nat)
    requires s < |q.fastReplies| == |q.viewIds| && rep.shardId < |q.viewIds| && q.globalViewId < rep.gViewId
    ensures var q' := Added(q, rep, coord);
      && q'.globalViewId == rep.gViewId && q'.viewIds == q.viewIds[rep.shardId := rep.viewId] && q'.coord == coord
      && q'.fastReplies[s] == if s == rep.shardId then map[rep.replicaId := rep] else map[]
  {
  }
}
