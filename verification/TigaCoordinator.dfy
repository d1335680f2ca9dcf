/**
 TigaEntity/TigaCoordinator.cc, struct GlobalInfo: the coordinator's daemon collects
 replies into quorums and finishes a request when every shard has enough of them.
 The check that the shards' leaders agree on a deadline is made in one of the two
 places where a request can finish; the other relies on reconciliation having
 removed the replies of leaders that lag behind.
 */
module TigaCoordinator {
  datatype Reply = Reply(
    shardId: nat, replicaId: nat, gViewId: nat, viewId: nat, deadline: nat,
    hasHash: bool, hash: int, logId: nat, specLogId: nat)

  // The waiting coordinator, if any, and the shards of its transaction.
  datatype Coord = NoCoord | Coord(targetShards: seq<nat>)

  // fastReplies and viewIds are indexed by shard.
  datatype Quorum = Quorum(fastReplies: seq<map<nat, Reply>>, globalViewId: nat, viewIds: seq<nat>, coord: Coord)

  // What another thread has last heard from each replica of each shard.  It is an
  // arbitrary input; a check reads each entry once while it counts replies and once
  // while it counts synced replicas, hence two snapshots.
  datatype Snapshot = Snapshot(views: Table, synced: Table, syncedSpec: Table)

  // One number per shard and replica, zero at first.
  type Table = map<(nat, nat), nat>

  function At(table: Table, s: nat, r: nat): nat {
    if (s, r) in table then table[(s, r)] else 0
  }

  // The values 1, 2, -1, -2 and -3 of isTxnCommitted.
  datatype Status = Fast | Slow | Incomplete | Cleared | Short

  // ---------- quorums as values ----------

  ghost predicate Shaped(q: Quorum, shardNum: nat) {
    && |q.fastReplies| == |q.viewIds| == shardNum
    && (q.coord.Coord? ==> (forall i :: 0 <= i < |q.coord.targetShards| ==> q.coord.targetShards[i] < shardNum)
                           && (forall i, j :: 0 <= i < j < |q.coord.targetShards| ==> q.coord.targetShards[i] != q.coord.targetShards[j]))
  }

  // Every reply kept for a shard is of the view recorded for it.
  ghost predicate InView(q: Quorum) {
    |q.fastReplies| == |q.viewIds|
    && forall s, r :: 0 <= s < |q.fastReplies| && r in q.fastReplies[s] ==> q.fastReplies[s][r].viewId == q.viewIds[s]
  }

  function Leader(q: Quorum, s: nat, replicaNum: nat): nat
    requires s < |q.viewIds| && replicaNum > 0
  {
    q.viewIds[s] % replicaNum
  }

  predicate HasLeader(q: Quorum, s: nat, replicaNum: nat)
    requires s < |q.fastReplies| == |q.viewIds| && replicaNum > 0
  {
    Leader(q, s, replicaNum) in q.fastReplies[s]
  }

  function LeaderReply(q: Quorum, s: nat, replicaNum: nat): Reply
    requires s < |q.fastReplies| == |q.viewIds| && replicaNum > 0 && HasLeader(q, s, replicaNum)
  {
    q.fastReplies[s][Leader(q, s, replicaNum)]
  }

  ghost predicate AllLeaders(q: Quorum, shardNum: nat, replicaNum: nat)
    requires Shaped(q, shardNum) && q.coord.Coord? && replicaNum > 0
  {
    forall i :: 0 <= i < |q.coord.targetShards| ==> HasLeader(q, q.coord.targetShards[i], replicaNum)
  }

  function DeadlineOf(q: Quorum, i: nat, replicaNum: nat): nat
    requires q.coord.Coord? && i < |q.coord.targetShards| && replicaNum > 0
    requires q.coord.targetShards[i] < |q.fastReplies| == |q.viewIds| && HasLeader(q, q.coord.targetShards[i], replicaNum)
  {
    LeaderReply(q, q.coord.targetShards[i], replicaNum).deadline
  }

  ghost predicate OneDeadline(q: Quorum, shardNum: nat, replicaNum: nat)
    requires Shaped(q, shardNum) && q.coord.Coord? && replicaNum > 0 && AllLeaders(q, shardNum, replicaNum)
  {
    forall i, j :: 0 <= i < |q.coord.targetShards| && 0 <= j < |q.coord.targetShards| ==>
                     DeadlineOf(q, i, replicaNum) == DeadlineOf(q, j, replicaNum)
  }

  // All leaders have answered, with different deadlines.
  ghost predicate NonSerializable(q: Quorum, shardNum: nat, replicaNum: nat)
    requires Shaped(q, shardNum) && replicaNum > 0
  {
    && q.coord.Coord? && AllLeaders(q, shardNum, replicaNum) && !OneDeadline(q, shardNum, replicaNum)
  }

  // ---------- enough replies ----------

  function FastQuorumSize(replicaNum: nat): nat {
    var size := replicaNum / 2 + (replicaNum / 2 + 1) / 2 + 1;
    if size < replicaNum then size else replicaNum
  }

  function SlowQuorumSize(replicaNum: nat): nat {
    replicaNum / 2 + 1
  }

  predicate Matches(rep: Reply, leader: Reply) {
    !rep.hasHash || rep.hash == leader.hash
  }

  // A reply with another hash from a replica known to be in a newer view.
  predicate Outdated(q: Quorum, s: nat, leader: Reply, snap: Snapshot, rep: Reply)
    requires s < |q.viewIds|
  {
    !Matches(rep, leader) && At(snap.views, rep.shardId, rep.replicaId) > q.viewIds[s]
  }

  predicate ValidFast(leader: Reply, snap: Snapshot, rep: Reply) {
    Matches(rep, leader) || At(snap.synced, rep.shardId, rep.replicaId) >= rep.logId
  }

  predicate ValidSlow(s: nat, leader: Reply, snap: Snapshot, rid: nat) {
    || (leader.logId > 0 && At(snap.synced, s, rid) >= leader.logId)
    || (leader.specLogId > 0 && At(snap.syncedSpec, s, rid) >= leader.specLogId)
  }

  ghost function FastReplicas(replies: map<nat, Reply>, leader: Reply, snap: Snapshot): set<nat> {
    set r | r in replies && ValidFast(leader, snap, replies[r])
  }

  ghost function SlowReplicas(s: nat, leaderId: nat, leader: Reply, snap: Snapshot, replicaNum: nat): set<nat> {
    set r: nat | r < replicaNum && r != leaderId && ValidSlow(s, leader, snap, r)
  }

  // One shard's verdict: replies are counted under one snapshot, synced replicas
  // under a later one.
  ghost function ShardStatus(q: Quorum, s: nat, replicaNum: nat, early: Snapshot, late: Snapshot): Status
    requires s < |q.fastReplies| == |q.viewIds| && replicaNum > 0
  {
    if !HasLeader(q, s, replicaNum) then Incomplete
    else
      var leader := LeaderReply(q, s, replicaNum);
      if exists r :: r in q.fastReplies[s] && Outdated(q, s, leader, early, q.fastReplies[s][r]) then Cleared
      else if |FastReplicas(q.fastReplies[s], leader, early)| >= FastQuorumSize(replicaNum) then Fast
      else if |SlowReplicas(s, Leader(q, s, replicaNum), leader, late, replicaNum)| + 1 >= SlowQuorumSize(replicaNum) then Slow
      else Short
  }

  ghost predicate WellIndexed(q: Quorum) {
    && q.coord.Coord? && |q.fastReplies| == |q.viewIds|
    && forall i :: 0 <= i < |q.coord.targetShards| ==> q.coord.targetShards[i] < |q.viewIds|
  }

  // The first n target shards have enough replies.
  ghost predicate Pass(q: Quorum, n: nat, replicaNum: nat, early: Snapshot, late: Snapshot)
    requires WellIndexed(q) && n <= |q.coord.targetShards| && replicaNum > 0
  {
    forall i :: 0 <= i < n ==> ShardStatus(q, q.coord.targetShards[i], replicaNum, early, late) in {Fast, Slow}
  }

  ghost predicate AllFast(q: Quorum, n: nat, replicaNum: nat, early: Snapshot, late: Snapshot)
    requires WellIndexed(q) && n <= |q.coord.targetShards| && replicaNum > 0
  {
    forall i :: 0 <= i < n ==> ShardStatus(q, q.coord.targetShards[i], replicaNum, early, late) == Fast
  }

  // The verdict on a quorum and the quorum it leaves: the first shard that does not
  // pass decides, and may lose its replies.
  ghost predicate Judged(q: Quorum, replicaNum: nat, early: Snapshot, late: Snapshot, status: Status, q': Quorum)
    requires WellIndexed(q) && replicaNum > 0
  {
    var shards := q.coord.targetShards;
    if Pass(q, |shards|, replicaNum, early, late) then
      q' == q && status == if AllFast(q, |shards|, replicaNum, early, late) then Fast else Slow
    else
      exists n: nat :: n < |shards| && FailsAt(q, n, replicaNum, early, late, status, q')
  }

  ghost predicate FailsAt(q: Quorum, n: nat, replicaNum: nat, early: Snapshot, late: Snapshot, status: Status, q': Quorum)
    requires WellIndexed(q) && n < |q.coord.targetShards| && replicaNum > 0
  {
    && Pass(q, n, replicaNum, early, late)
    && status == ShardStatus(q, q.coord.targetShards[n], replicaNum, early, late) && status !in {Fast, Slow}
    && q' == if status == Cleared then ClearShard(q, q.coord.targetShards[n]) else q
  }

  function ClearShard(q: Quorum, s: nat): Quorum
    requires s < |q.fastReplies|
  {
    q.(fastReplies := q.fastReplies[s := map[]])
  }

  // A request may finish with this quorum: every target shard has the reply of the
  // leader of its recorded view, with one deadline, and enough other replies.
  ghost predicate MayFinish(q: Quorum, shardNum: nat, replicaNum: nat) {
    && replicaNum > 0 && Shaped(q, shardNum) && InView(q) && q.coord.Coord?
    && AllLeaders(q, shardNum, replicaNum) && OneDeadline(q, shardNum, replicaNum)
    && exists early, late :: Pass(q, |q.coord.targetShards|, replicaNum, early, late)
  }

  // Every target shard has enough replies: isTxnCommitted returns a positive number.
  ghost predicate Enough(q: Quorum, replicaNum: nat, early: Snapshot, late: Snapshot) {
    replicaNum > 0 && q.coord.Coord? && WellIndexed(q) && Pass(q, |q.coord.targetShards|, replicaNum, early, late)
  }

  // Quorums between two turns of the daemon.
  ghost predicate QuorumOk(q: Quorum, shardNum: nat, replicaNum: nat) {
    replicaNum > 0 && Shaped(q, shardNum) && InView(q) && !NonSerializable(q, shardNum, replicaNum)
  }

  // Enough replies from a quorum that is not contradictory: the request may finish.
  lemma PassMayFinish(q: Quorum, shardNum: nat, replicaNum: nat, early: Snapshot, late: Snapshot)
    requires replicaNum > 0 && Shaped(q, shardNum) && InView(q) && !NonSerializable(q, shardNum, replicaNum)
    requires q.coord.Coord? && Pass(q, |q.coord.targetShards|, replicaNum, early, late)
    ensures MayFinish(q, shardNum, replicaNum)
  {
  }

  // A target shard without a leader reply silences the deadline check.
  lemma NoLeaderNoConflict(q: Quorum, shardNum: nat, replicaNum: nat, i: nat)
    requires replicaNum > 0 && Shaped(q, shardNum) && InView(q) && q.coord.Coord? && i < |q.coord.targetShards|
    requires !HasLeader(q, q.coord.targetShards[i], replicaNum)
    ensures QuorumOk(q, shardNum, replicaNum)
  {
  }

  // Whatever the verdict, the quorum left is in shape, and no more contradictory.
  lemma JudgedKeeps(q: Quorum, shardNum: nat, replicaNum: nat, early: Snapshot, late: Snapshot, status: Status, q': Quorum)
    requires replicaNum > 0 && Shaped(q, shardNum) && InView(q) && q.coord.Coord?
    requires Judged(q, replicaNum, early, late, status, q')
    ensures Shaped(q', shardNum) && InView(q') && q'.coord == q.coord
    ensures q' == q || QuorumOk(q', shardNum, replicaNum)
    ensures status in {Fast, Slow} ==> q' == q
    ensures status in {Fast, Slow} <==> Pass(q, |q.coord.targetShards|, replicaNum, early, late)
  {
    hide Pass, AllFast, ShardStatus;
    if !Pass(q, |q.coord.targetShards|, replicaNum, early, late) {
      var n: nat :| n < |q.coord.targetShards| && FailsAt(q, n, replicaNum, early, late, status, q');
      if status == Cleared {
        NoLeaderNoConflict(q', shardNum, replicaNum, n);
      }
    }
  }

  // ---------- replies into quorums ----------

  // The first reply for a request; views holds currentViews_[s][0].
  function NewQuorum(rep: Reply, coord: Coord, views: seq<nat>): Quorum
    requires rep.shardId < |views|
  {
    Quorum(seq(|views|, s => if s == rep.shardId then map[rep.replicaId := rep] else map[]),
           rep.gViewId, views[rep.shardId := rep.viewId], coord)
  }

  function PutReply(q: Quorum, rep: Reply): Quorum
    requires rep.shardId < |q.fastReplies|
  {
    var replies: map<nat, Reply> := q.fastReplies[rep.shardId];
    q.(fastReplies := q.fastReplies[rep.shardId := replies[rep.replicaId := rep]])
  }

  // A later reply: a newer global view clears everything, a newer view of the shard
  // clears the shard, an older view is ignored.
  function Added(q: Quorum, rep: Reply, coord: Coord): Quorum
    requires rep.shardId < |q.fastReplies| == |q.viewIds|
  {
    if q.globalViewId < rep.gViewId then
      PutReply(Quorum(seq(|q.fastReplies|, _ => map[]), rep.gViewId, q.viewIds[rep.shardId := rep.viewId], coord), rep)
    else if q.viewIds[rep.shardId] < rep.viewId then
      PutReply(ClearShard(q, rep.shardId).(viewIds := q.viewIds[rep.shardId := rep.viewId], coord := coord), rep)
    else if q.viewIds[rep.shardId] == rep.viewId then PutReply(q, rep)
    else q
  }

  ghost predicate CoordOk(coord: Coord, shardNum: nat) {
    coord.Coord? ==>
      && (forall i :: 0 <= i < |coord.targetShards| ==> coord.targetShards[i] < shardNum)
      && (forall i, j :: 0 <= i < j < |coord.targetShards| ==> coord.targetShards[i] != coord.targetShards[j])
  }

  lemma NewQuorumShape(rep: Reply, coord: Coord, views: seq<nat>)
    requires rep.shardId < |views| && CoordOk(coord, |views|)
    ensures Shaped(NewQuorum(rep, coord, views), |views|) && InView(NewQuorum(rep, coord, views))
  {
  }

  lemma AddedShape(q: Quorum, rep: Reply, coord: Coord, shardNum: nat)
    requires rep.shardId < shardNum && Shaped(q, shardNum) && InView(q) && CoordOk(coord, shardNum)
    ensures Shaped(Added(q, rep, coord), shardNum) && InView(Added(q, rep, coord))
  {
  }

  // ---------- judging a quorum ----------

  // The loop over the replies of a shard.
  method CountFast(q: Quorum, s: nat, leader: Reply, early: Snapshot) returns (cleared: bool, count: nat)
    requires s < |q.fastReplies| == |q.viewIds|
    ensures cleared <==> exists r :: r in q.fastReplies[s] && Outdated(q, s, leader, early, q.fastReplies[s][r])
    ensures !cleared ==> count == |FastReplicas(q.fastReplies[s], leader, early)|
  {
    hide Outdated, ValidFast;
    var replies: map<nat, Reply> := q.fastReplies[s];
    count := 0;
    var todo := replies.Keys;
    ghost var valid: set<nat> := {};
    while todo != {}
      invariant todo <= replies.Keys && count == |valid|
      invariant forall r :: r in valid <==> r in replies && r !in todo && ValidFast(leader, early, replies[r])
      invariant forall r :: r in replies && r !in todo ==> !Outdated(q, s, leader, early, replies[r])
      decreases todo
    {
      var r: nat :| r in todo;
      var ok := JudgeReply(q, s, leader, early, replies[r]);
      if ok == Cleared {
        return true, 0;
      }
      if ok == Fast {
        valid := valid + {r};
        count := count + 1;
      }
      todo := todo - {r};
    }
    cleared := false;
    assert valid == FastReplicas(replies, leader, early);
  }

  // One reply: it counts, it does not, or it makes the shard start over.
  method JudgeReply(q: Quorum, s: nat, leader: Reply, early: Snapshot, rep: Reply) returns (verdict: Status)
    requires s < |q.viewIds|
    ensures verdict == if Outdated(q, s, leader, early, rep) then Cleared else if ValidFast(leader, early, rep) then Fast else Short
  {
    if !rep.hasHash || rep.hash == leader.hash {
      return Fast;
    }
    if At(early.views, rep.shardId, rep.replicaId) > q.viewIds[s] {
      return Cleared;
    }
    return if At(early.synced, rep.shardId, rep.replicaId) >= rep.logId then Fast else Short;
  }

  // The loop over the other replicas of a shard.
  method CountSlow(s: nat, leaderId: nat, leader: Reply, late: Snapshot, replicaNum: nat) returns (count: nat)
    ensures count == |SlowReplicas(s, leaderId, leader, late, replicaNum)|
  {
    hide ValidSlow;
    count := 0;
    ghost var valid: set<nat> := {};
    for rid: nat := 0 to replicaNum
      invariant count == |valid|
      invariant forall r: nat :: r in valid <==> r < rid && r != leaderId && ValidSlow(s, leader, late, r)
    {
      if rid != leaderId && ValidSlow(s, leader, late, rid) {
        valid := valid + {rid};
        count := count + 1;
      }
    }
    assert valid == SlowReplicas(s, leaderId, leader, late, replicaNum);
  }

  method JudgeShard(q: Quorum, s: nat, replicaNum: nat, early: Snapshot, late: Snapshot) returns (status: Status)
    requires s < |q.fastReplies| == |q.viewIds| && replicaNum > 0
    ensures status == ShardStatus(q, s, replicaNum, early, late)
  {
    hide FastReplicas, SlowReplicas, Outdated;
    var leaderId := Leader(q, s, replicaNum);
    if leaderId !in q.fastReplies[s] {
      return Incomplete;
    }
    var leader := q.fastReplies[s][leaderId];
    var cleared, fast := CountFast(q, s, leader, early);
    if cleared {
      return Cleared;
    }
    var slow := CountSlow(s, leaderId, leader, late, replicaNum);
    if fast < FastQuorumSize(replicaNum) && slow + 1 < SlowQuorumSize(replicaNum) {
      return Short;
    }
    return if fast < FastQuorumSize(replicaNum) then Slow else Fast;
  }

  method IsTxnCommitted(q: Quorum, replicaNum: nat, early: Snapshot, late: Snapshot) returns (status: Status, q': Quorum)
    requires replicaNum > 0 && (q.coord.Coord? ==> WellIndexed(q))
    ensures q.coord.NoCoord? ==> status == Incomplete && q' == q
    ensures q.coord.Coord? ==> Judged(q, replicaNum, early, late, status, q')
  {
    hide ShardStatus;
    q' := q;
    if q.coord.NoCoord? {
      return Incomplete, q;
    }
    var shards := q.coord.targetShards;
    var hasSlowShard := false;
    for i: nat := 0 to |shards|
      invariant Pass(q, i, replicaNum, early, late)
      invariant hasSlowShard <==> !AllFast(q, i, replicaNum, early, late)
    {
      var verdict := JudgeShard(q, shards[i], replicaNum, early, late);
      if verdict !in {Fast, Slow} {
        if verdict == Cleared {
          q' := ClearShard(q, shards[i]);
        }
        assert FailsAt(q, i, replicaNum, early, late, verdict, q');
        return verdict, q';
      }
      if verdict == Slow {
        hasSlowShard := true;
      }
    }
    status := if hasSlowShard then Slow else Fast;
  }

  // agreed is the largest of the leaders' deadlines.
  ghost predicate IsAgreed(q: Quorum, shardNum: nat, replicaNum: nat, agreed: nat)
    requires Shaped(q, shardNum) && q.coord.Coord? && replicaNum > 0 && AllLeaders(q, shardNum, replicaNum)
  {
    && (forall i :: 0 <= i < |q.coord.targetShards| ==> DeadlineOf(q, i, replicaNum) <= agreed)
    && (exists i :: 0 <= i < |q.coord.targetShards| && DeadlineOf(q, i, replicaNum) == agreed)
  }

  method IsNonSerializable(q: Quorum, shardNum: nat, replicaNum: nat) returns (nonSerializable: bool, agreedDeadline: nat)
    requires Shaped(q, shardNum) && replicaNum > 0
    ensures nonSerializable == NonSerializable(q, shardNum, replicaNum)
    ensures nonSerializable ==> IsAgreed(q, shardNum, replicaNum, agreedDeadline)
  {
    agreedDeadline := 0;
    if q.coord.NoCoord? || |q.coord.targetShards| == 1 {
      return false, 0;
    }
    var shards := q.coord.targetShards;
    var differentDeadlines: set<nat> := {};
    for i: nat := 0 to |shards|
      invariant forall j :: 0 <= j < i ==> HasLeader(q, shards[j], replicaNum)
      invariant forall j :: 0 <= j < i ==> DeadlineOf(q, j, replicaNum) in differentDeadlines && DeadlineOf(q, j, replicaNum) <= agreedDeadline
      invariant forall d :: d in differentDeadlines ==> exists j :: 0 <= j < i && DeadlineOf(q, j, replicaNum) == d
      invariant if i == 0 then agreedDeadline == 0 else agreedDeadline in differentDeadlines
    {
      var leader := Leader(q, shards[i], replicaNum);
      if leader !in q.fastReplies[shards[i]] {
        return false, 0;
      }
      var deadline := q.fastReplies[shards[i]][leader].deadline;
      assert DeadlineOf(q, i, replicaNum) == deadline;
      differentDeadlines := differentDeadlines + {deadline};
      agreedDeadline := if agreedDeadline < deadline then deadline else agreedDeadline;
    }
    nonSerializable := |differentDeadlines| > 1;
    ManyDeadlines(q, shardNum, replicaNum, differentDeadlines);
  }

  lemma ManyDeadlines(q: Quorum, shardNum: nat, replicaNum: nat, deadlines: set<nat>)
    requires Shaped(q, shardNum) && q.coord.Coord? && replicaNum > 0 && AllLeaders(q, shardNum, replicaNum)
    requires forall i :: 0 <= i < |q.coord.targetShards| ==> DeadlineOf(q, i, replicaNum) in deadlines
    requires forall d :: d in deadlines ==> exists i :: 0 <= i < |q.coord.targetShards| && DeadlineOf(q, i, replicaNum) == d
    ensures |deadlines| > 1 <==> !OneDeadline(q, shardNum, replicaNum)
  {
    if OneDeadline(q, shardNum, replicaNum) {
      SameElements(deadlines);
    } else {
      var i, j :| 0 <= i < |q.coord.targetShards| && 0 <= j < |q.coord.targetShards|
        && DeadlineOf(q, i, replicaNum) != DeadlineOf(q, j, replicaNum);
      TwoElements(deadlines, DeadlineOf(q, i, replicaNum), DeadlineOf(q, j, replicaNum));
    }
  }

  lemma SameElements(s: set<nat>)
    requires forall x, y :: x in s && y in s ==> x == y
    ensures |s| <= 1
  {
    if x :| x in s {
      assert s == {x};
    }
  }

  lemma TwoElements(s: set<nat>, x: nat, y: nat)
    requires x in s && y in s && x != y
    ensures |s| > 1
  {
    assert s == {x, y} + (s - {x, y});
  }

  // ---------- reconciliation ----------

  // What shard s keeps: not its leader's reply, if that lags behind.
  function Caught(q: Quorum, s: nat, replicaNum: nat, agreed: nat): map<nat, Reply>
    requires s < |q.fastReplies| == |q.viewIds| && replicaNum > 0
  {
    if HasLeader(q, s, replicaNum) && LeaderReply(q, s, replicaNum).deadline < agreed then
      q.fastReplies[s] - {Leader(q, s, replicaNum)}
    else q.fastReplies[s]
  }

  ghost predicate Reconciled(q: Quorum, replicaNum: nat, agreed: nat, shards: set<nat>, q': Quorum)
    requires |q.fastReplies| == |q.viewIds| && replicaNum > 0
  {
    && q'.viewIds == q.viewIds && q'.coord == q.coord && q'.globalViewId == q.globalViewId
    && |q'.fastReplies| == |q.fastReplies|
    && forall s :: 0 <= s < |q.fastReplies| ==>
                     q'.fastReplies[s] == if s in shards then Caught(q, s, replicaNum, agreed) else q.fastReplies[s]
  }

  method IssueReconcliationRequest(q: Quorum, shardNum: nat, replicaNum: nat, agreedDeadline: nat) returns (q': Quorum, asked: set<nat>)
    requires Shaped(q, shardNum) && q.coord.Coord? && replicaNum > 0 && AllLeaders(q, shardNum, replicaNum)
    ensures Reconciled(q, replicaNum, agreedDeadline, (set s | s in q.coord.targetShards), q')
    ensures forall s :: s in asked <==> s in q.coord.targetShards && LeaderReply(q, s, replicaNum).deadline < agreedDeadline
  {
    var shards := q.coord.targetShards;
    q', asked := q, {};
    for i: nat := 0 to |shards|
      invariant Reconciled(q, replicaNum, agreedDeadline, (set s | s in shards[..i]), q')
      invariant forall s :: s in asked <==> s in shards[..i] && LeaderReply(q, s, replicaNum).deadline < agreedDeadline
    {
      var s := shards[i];
      var leader := Leader(q', s, replicaNum);
      assert shards[..i + 1] == shards[..i] + [s];
      assert s !in shards[..i];
      if q'.fastReplies[s][leader].deadline < agreedDeadline {
        q' := q'.(fastReplies := q'.fastReplies[s := q'.fastReplies[s] - {leader}]);
        asked := asked + {s};
      }
    }
    assert shards[..|shards|] == shards;
  }

  lemma ReconciledShape(q: Quorum, shardNum: nat, replicaNum: nat, agreed: nat, shards: set<nat>, q': Quorum)
    requires replicaNum > 0 && Shaped(q, shardNum) && InView(q) && Reconciled(q, replicaNum, agreed, shards, q')
    ensures Shaped(q', shardNum) && InView(q')
  {
  }

  // Some leader was behind, so its shard is without a leader reply now.
  lemma LaggardDropped(q: Quorum, shardNum: nat, replicaNum: nat, agreed: nat, q': Quorum) returns (k: nat)
    requires replicaNum > 0 && Shaped(q, shardNum)
    requires NonSerializable(q, shardNum, replicaNum) && IsAgreed(q, shardNum, replicaNum, agreed)
    requires Reconciled(q, replicaNum, agreed, (set s | s in q.coord.targetShards), q')
    ensures k < |q.coord.targetShards| && q'.viewIds == q.viewIds && |q'.fastReplies| == |q.viewIds|
    ensures !HasLeader(q', q.coord.targetShards[k], replicaNum)
  {
    var i, j :| 0 <= i < |q.coord.targetShards| && 0 <= j < |q.coord.targetShards|
      && DeadlineOf(q, i, replicaNum) != DeadlineOf(q, j, replicaNum);
    k := if DeadlineOf(q, i, replicaNum) < agreed then i else j;
    assert q.coord.targetShards[k] in q.coord.targetShards;
  }

  lemma ReconciledKeeps(q: Quorum, shardNum: nat, replicaNum: nat, agreed: nat, q': Quorum)
    requires replicaNum > 0 && Shaped(q, shardNum) && InView(q)
    requires NonSerializable(q, shardNum, replicaNum) && IsAgreed(q, shardNum, replicaNum, agreed)
    requires Reconciled(q, replicaNum, agreed, (set s | s in q.coord.targetShards), q')
    ensures QuorumOk(q', shardNum, replicaNum)
  {
    hide InView, IsAgreed, AllLeaders, OneDeadline, QuorumOk;
    var k := LaggardDropped(q, shardNum, replicaNum, agreed, q');
    ReconciledShape(q, shardNum, replicaNum, agreed, (set s | s in q.coord.targetShards), q');
    NoLeaderNoConflict(q', shardNum, replicaNum, k);
  }

  // ---------- the daemon ----------

  ghost predicate Disjoint(quorums: map<nat, Quorum>, committed: set<nat>) {
    forall id :: id in quorums ==> id !in committed
  }

  // What isTxnCommitted leaves of a quorum.
  ghost predicate Kept(q: Quorum, replicaNum: nat, early: Snapshot, late: Snapshot, q': Quorum) {
    if q.coord.NoCoord? || replicaNum == 0 || !WellIndexed(q) then q' == q
    else exists status :: Judged(q, replicaNum, early, late, status, q')
  }

  // A contradictory quorum loses the replies of the leaders that lag behind.
  ghost predicate Settled(q: Quorum, shardNum: nat, replicaNum: nat, q': Quorum) {
    if replicaNum > 0 && Shaped(q, shardNum) && NonSerializable(q, shardNum, replicaNum) then
      exists agreed :: IsAgreed(q, shardNum, replicaNum, agreed)
                       && Reconciled(q, replicaNum, agreed, (set s | s in q.coord.targetShards), q')
    else q' == q
  }

  // What remains of a quorum that is not finished.
  ghost predicate Remains(q: Quorum, shardNum: nat, replicaNum: nat, early: Snapshot, late: Snapshot, q': Quorum) {
    exists q1 :: Kept(q, replicaNum, early, late, q1) && Settled(q1, shardNum, replicaNum, q')
  }

  // The calls to Finish so far: exactly one per committed request, each allowed.
  ghost predicate FinishedOk(finished: seq<(nat, Quorum)>, committed: set<nat>, shardNum: nat, replicaNum: nat) {
    && (forall i :: 0 <= i < |finished| ==> finished[i].0 in committed && MayFinish(finished[i].1, shardNum, replicaNum))
    && (forall i, j :: 0 <= i < j < |finished| ==> finished[i].0 != finished[j].0)
    && (forall id :: id in committed ==> IsFinished(finished, id))
  }

  ghost predicate IsFinished(finished: seq<(nat, Quorum)>, id: nat) {
    exists i :: 0 <= i < |finished| && finished[i].0 == id
  }

  lemma FinishedMore(finished: seq<(nat, Quorum)>, committed: set<nat>, shardNum: nat, replicaNum: nat, id: nat, q: Quorum)
    requires FinishedOk(finished, committed, shardNum, replicaNum) && id !in committed && MayFinish(q, shardNum, replicaNum)
    ensures FinishedOk(finished + [(id, q)], committed + {id}, shardNum, replicaNum)
  {
    hide MayFinish;
    var finished' := finished + [(id, q)];
    assert finished'[|finished|].0 == id;
    forall c | c in committed
      ensures IsFinished(finished', c)
    {
      var i :| 0 <= i < |finished| && finished[i].0 == c;
      assert finished'[i].0 == c;
    }
  }

  class GlobalInfo {
    const shardNum: nat
    const replicaNum: nat
    var currentLeaderViews: seq<nat>
    var quorumSets: map<nat, Quorum>
    var committedCoordReqIds: set<nat>
    var finished: seq<(nat, Quorum)>  // the calls to Finish

    ghost predicate Valid()
      reads this
    {
      && replicaNum > 0 && |currentLeaderViews| == shardNum
      && (forall id :: id in quorumSets ==> QuorumOk(quorumSets[id], shardNum, replicaNum))
      && Disjoint(quorumSets, committedCoordReqIds)
      && FinishedOk(finished, committedCoordReqIds, shardNum, replicaNum)
    }

    constructor (shardNum: nat, replicaNum: nat)
      requires replicaNum > 0
      ensures Valid() && quorumSets == map[] && finished == []
      ensures this.shardNum == shardNum && this.replicaNum == replicaNum
    {
      this.shardNum, this.replicaNum := shardNum, replicaNum;
      currentLeaderViews := seq(shardNum, _ => 0);
      quorumSets, committedCoordReqIds, finished := map[], {}, [];
    }

    // Another thread learns of a view.
    method OnView(shard: nat, view: nat)
      requires Valid() && shard < shardNum
      modifies this`currentLeaderViews
      ensures Valid() && currentLeaderViews == old(currentLeaderViews)[shard := view]
    {
      currentLeaderViews := currentLeaderViews[shard := view];
    }

    // Puts a reply into the quorum of its request.
    method AddToQuorumSet(id: nat, rep: Reply, coord: Coord)
      requires rep.shardId < shardNum == |currentLeaderViews| && CoordOk(coord, shardNum)
      requires id in quorumSets ==> Shaped(quorumSets[id], shardNum) && InView(quorumSets[id])
      modifies this`quorumSets
      ensures id in quorumSets && quorumSets == old(quorumSets)[id := quorumSets[id]]
      ensures quorumSets[id] == if id in old(quorumSets) then Added(old(quorumSets)[id], rep, coord) else NewQuorum(rep, coord, currentLeaderViews)
      ensures Shaped(quorumSets[id], shardNum) && InView(quorumSets[id])
    {
      if id !in quorumSets {
        NewQuorumShape(rep, coord, currentLeaderViews);
        quorumSets := quorumSets[id := NewQuorum(rep, coord, currentLeaderViews)];
      } else {
        AddedShape(quorumSets[id], rep, coord, shardNum);
        quorumSets := quorumSets[id := Added(quorumSets[id], rep, coord)];
      }
    }

    // The quorum a reply is judged in.
    ghost function QuorumWith(id: nat, rep: Reply, coord: Coord): Quorum
      requires rep.shardId < shardNum == |currentLeaderViews|
      requires id in quorumSets ==> Shaped(quorumSets[id], shardNum)
      reads this
    {
      if id in quorumSets then Added(quorumSets[id], rep, coord) else NewQuorum(rep, coord, currentLeaderViews)
    }

    // One reply taken from the queue by UpdateQuorumSet: its request is finished
    // exactly if it is not finished yet, every shard has enough replies, and the
    // leaders do not disagree.
    method OnReply(id: nat, rep: Reply, coord: Coord) returns (ghost early: Snapshot, ghost late: Snapshot)
      requires Valid() && rep.shardId < shardNum && CoordOk(coord, shardNum)
      modifies this`quorumSets, this`committedCoordReqIds, this`finished
      ensures Valid()
      ensures id in old(quorumSets) ==> Shaped(old(quorumSets)[id], shardNum)
      ensures var q := old(QuorumWith(id, rep, coord));
        if id !in old(committedCoordReqIds) && Enough(q, replicaNum, early, late) && Shaped(q, shardNum) && !NonSerializable(q, shardNum, replicaNum) then
          finished == old(finished) + [(id, q)] && committedCoordReqIds == old(committedCoordReqIds) + {id} && id !in quorumSets
        else
          finished == old(finished) && committedCoordReqIds == old(committedCoordReqIds)
          && (id !in committedCoordReqIds ==> id in quorumSets && Remains(q, shardNum, replicaNum, early, late, quorumSets[id]))
      ensures forall other :: other != id ==> (other in quorumSets <==> other in old(quorumSets))
                                              && (other in quorumSets ==> quorumSets[other] == old(quorumSets)[other])
    {
      hide MayFinish, NonSerializable, Judged, InView, Shaped, NewQuorum, Added, Enough, Kept, Settled;
      QuorumShape(quorumSets, shardNum, replicaNum, id);
      var earlySeen: Snapshot := *;
      var lateSeen: Snapshot := *;
      early, late := earlySeen, lateSeen;
      if id in committedCoordReqIds {
        return;
      }
      AddToQuorumSet(id, rep, coord);
      var q := quorumSets[id];
      var status, agreedDeadline, nonSerializable;
      status, q := Judge(q, earlySeen, lateSeen);
      nonSerializable, agreedDeadline := IsNonSerializable(q, shardNum, replicaNum);
      if status in {Fast, Slow} && !nonSerializable {
        FinishedMore(finished, committedCoordReqIds, shardNum, replicaNum, id, q);
        committedCoordReqIds := committedCoordReqIds + {id};
        finished := finished + [(id, q)];
        quorumSets := quorumSets - {id};
      } else {
        if nonSerializable {
          q := Reconcile(q, agreedDeadline);
        } else {
          NothingToSettle(q, shardNum, replicaNum);
        }
        quorumSets := quorumSets[id := q];
      }
    }

    // isTxnCommitted with what it means for the deadline check.
    method Judge(q: Quorum, early: Snapshot, late: Snapshot) returns (status: Status, q': Quorum)
      requires replicaNum > 0 && Shaped(q, shardNum) && InView(q)
      ensures Shaped(q', shardNum) && InView(q')
      ensures q' == q || QuorumOk(q', shardNum, replicaNum)
      ensures status in {Fast, Slow} ==> q' == q
      ensures status in {Fast, Slow} <==> Enough(q, replicaNum, early, late)
      ensures Kept(q, replicaNum, early, late, q')
      ensures status in {Fast, Slow} && !NonSerializable(q, shardNum, replicaNum) ==> MayFinish(q, shardNum, replicaNum)
    {
      hide Judged, MayFinish, InView, QuorumOk, NonSerializable, Pass;
      ShapedIsIndexed(q, shardNum);
      status, q' := IsTxnCommitted(q, replicaNum, early, late);
      if q.coord.Coord? {
        JudgedKeeps(q, shardNum, replicaNum, early, late, status, q');
        if status in {Fast, Slow} && !NonSerializable(q, shardNum, replicaNum) {
          PassMayFinish(q, shardNum, replicaNum, early, late);
        }
      }
    }

    method Reconcile(q: Quorum, agreedDeadline: nat) returns (q': Quorum)
      requires replicaNum > 0 && Shaped(q, shardNum) && InView(q) && NonSerializable(q, shardNum, replicaNum)
      requires IsAgreed(q, shardNum, replicaNum, agreedDeadline)
      ensures QuorumOk(q', shardNum, replicaNum) && Settled(q, shardNum, replicaNum, q')
    {
      hide IsAgreed, Reconciled, InView, QuorumOk;
      var asked;
      q', asked := IssueReconcliationRequest(q, shardNum, replicaNum, agreedDeadline);
      ReconciledKeeps(q, shardNum, replicaNum, agreedDeadline, q');
    }

    // The daemon's other loop: it looks at every quorum again, without checking
    // deadlines, and finishes those that have enough replies by now.
    method CheckQuorum() returns (ghost seen: map<nat, (Snapshot, Snapshot)>)
      requires Valid()
      modifies this`quorumSets, this`committedCoordReqIds, this`finished
      ensures Valid() && old(finished) <= finished && seen.Keys == old(quorumSets.Keys)
      ensures forall id :: id in seen ==>
                (id in committedCoordReqIds <==> Enough(old(quorumSets)[id], replicaNum, seen[id].0, seen[id].1))
                && (id in quorumSets <==> id !in committedCoordReqIds)
      ensures forall id :: id in quorumSets ==> id in seen && Kept(old(quorumSets)[id], replicaNum, seen[id].0, seen[id].1, quorumSets[id])
      ensures forall id :: id !in seen ==> id !in quorumSets && (id in committedCoordReqIds <==> id in old(committedCoordReqIds))
    {
      hide Enough, Kept;
      var ids;
      ids, seen := CollectCommitted();
      FinishAll(ids);
    }

    // The finishing loop.
    method FinishAll(ids: seq<nat>)
      requires Valid() && AllMayFinish(quorumSets, ids, shardNum, replicaNum)
      modifies this`quorumSets, this`committedCoordReqIds, this`finished
      ensures Valid() && old(finished) <= finished
      ensures quorumSets == old(quorumSets) - Members(ids) && committedCoordReqIds == old(committedCoordReqIds) + Members(ids)
    {
      hide MayFinish, QuorumOk, FinishedOk;
      for i: nat := 0 to |ids|
        invariant Valid() && old(finished) <= finished
        invariant quorumSets == old(quorumSets) - Members(ids[..i])
        invariant committedCoordReqIds == old(committedCoordReqIds) + Members(ids[..i])
        invariant AllMayFinish(quorumSets, ids[i..], shardNum, replicaNum)
      {
        FinishFirst(ids[i..]);
        assert ids[i..][1..] == ids[i + 1..];
        assert ids[..i + 1] == ids[..i] + [ids[i]];
      }
      assert ids[..|ids|] == ids;
    }

    // One turn of the finishing loop.
    method FinishFirst(ids: seq<nat>)
      requires Valid() && ids != [] && AllMayFinish(quorumSets, ids, shardNum, replicaNum)
      modifies this`quorumSets, this`committedCoordReqIds, this`finished
      ensures Valid() && AllMayFinish(quorumSets, ids[1..], shardNum, replicaNum)
      ensures quorumSets == old(quorumSets) - {ids[0]} && old(finished) <= finished
      ensures committedCoordReqIds == old(committedCoordReqIds) + {ids[0]}
    {
      hide MayFinish, QuorumOk;
      var reqId := ids[0];
      if reqId !in committedCoordReqIds {
        FinishedMore(finished, committedCoordReqIds, shardNum, replicaNum, reqId, quorumSets[reqId]);
        committedCoordReqIds := committedCoordReqIds + {reqId};
        finished := finished + [(reqId, quorumSets[reqId])];
      }
      quorumSets := quorumSets - {reqId};
    }

    // The first loop of CheckQuorum.
    method CollectCommitted() returns (ids: seq<nat>, ghost seen: map<nat, (Snapshot, Snapshot)>)
      requires Valid()
      modifies this`quorumSets
      ensures Valid() && quorumSets.Keys == old(quorumSets.Keys) == seen.Keys
      ensures AllMayFinish(quorumSets, ids, shardNum, replicaNum)
      ensures forall id :: id in seen ==> (id in ids <==> Enough(old(quorumSets)[id], replicaNum, seen[id].0, seen[id].1))
      ensures forall id :: id in ids ==> id in seen
      ensures forall id :: id in seen ==> Kept(old(quorumSets)[id], replicaNum, seen[id].0, seen[id].1, quorumSets[id])
    {
      hide MayFinish, QuorumOk, FinishedOk, Enough, Kept;
      ids, seen := [], map[];
      var todo := quorumSets.Keys;
      while todo != {}
        invariant Valid() && quorumSets.Keys == old(quorumSets.Keys) && todo <= quorumSets.Keys
        invariant forall id :: id in todo ==> quorumSets[id] == old(quorumSets)[id]
        invariant AllMayFinish(quorumSets, ids, shardNum, replicaNum) && seen.Keys == quorumSets.Keys - todo
        invariant forall id :: id in ids ==> id in seen
        invariant forall id :: id in seen ==> Kept(old(quorumSets)[id], replicaNum, seen[id].0, seen[id].1, quorumSets[id])
        invariant forall id :: id in seen ==> (id in ids <==> Enough(old(quorumSets)[id], replicaNum, seen[id].0, seen[id].1))
        decreases todo
      {
        var reqId: nat :| reqId in todo;
        todo := todo - {reqId};
        NotCommitted(quorumSets, committedCoordReqIds, reqId);
        var status, early, late := Recheck(reqId);
        seen := seen[reqId := (early, late)];
        if status in {Fast, Slow} {
          ids := ids + [reqId];
        }
      }
    }

    // The test of one quorum.  A request is out of the map once it is committed, so
    // the program's other case does not arise.
    method Recheck(reqId: nat) returns (status: Status, ghost early: Snapshot, ghost late: Snapshot)
      requires Valid() && reqId in quorumSets && reqId !in committedCoordReqIds
      modifies this`quorumSets
      ensures Valid() && reqId in quorumSets && quorumSets == old(quorumSets)[reqId := quorumSets[reqId]]
      ensures status in {Fast, Slow} ==> MayFinish(quorumSets[reqId], shardNum, replicaNum)
      ensures status in {Fast, Slow} <==> Enough(old(quorumSets)[reqId], replicaNum, early, late)
      ensures Kept(old(quorumSets)[reqId], replicaNum, early, late, quorumSets[reqId])
    {
      hide MayFinish, NonSerializable, FinishedOk, InView, Enough, Kept;
      var earlySeen: Snapshot := *;
      var lateSeen: Snapshot := *;
      early, late := earlySeen, lateSeen;
      var q: Quorum;
      status, q := Judge(quorumSets[reqId], earlySeen, lateSeen);
      quorumSets := quorumSets[reqId := q];
    }
  }

  lemma NothingToSettle(q: Quorum, shardNum: nat, replicaNum: nat)
    requires replicaNum > 0 && Shaped(q, shardNum) && !NonSerializable(q, shardNum, replicaNum)
    ensures Settled(q, shardNum, replicaNum, q)
  {
  }

  lemma NotCommitted(quorums: map<nat, Quorum>, committed: set<nat>, id: nat)
    requires Disjoint(quorums, committed) && id in quorums
    ensures id !in committed
  {
  }

  ghost function Members(ids: seq<nat>): set<nat> {
    set id | id in ids
  }

  ghost predicate AllMayFinish(quorums: map<nat, Quorum>, ids: seq<nat>, shardNum: nat, replicaNum: nat) {
    && (forall i :: 0 <= i < |ids| ==> ids[i] in quorums && MayFinish(quorums[ids[i]], shardNum, replicaNum))
    && (forall i, j :: 0 <= i < j < |ids| ==> ids[i] != ids[j])
  }

  lemma QuorumShape(quorums: map<nat, Quorum>, shardNum: nat, replicaNum: nat, id: nat)
    requires forall i :: i in quorums ==> QuorumOk(quorums[i], shardNum, replicaNum)
    ensures id in quorums ==> Shaped(quorums[id], shardNum) && InView(quorums[id])
  {
  }

  lemma ShapedIsIndexed(q: Quorum, shardNum: nat)
    requires Shaped(q, shardNum)
    ensures q.coord.Coord? ==> WellIndexed(q)
  {
  }
}
