/**
 What one replica of the Detock log makes of the messages it gets, whatever their
 order and however often they are repeated: a follower prepares the longest gap-free
 run of batches it has been sent and keeps the rest, and the leader commits the
 largest batch for which a quorum has replied.
 */
module DetockLogReplicas {
  import opened Collections
  import opened DetockLog

  // ---------- a follower ----------

  // The replica after a message, and the ids it replies to.
  ghost function Receive(r: Replica, m: Message): (Replica, set<nat>) {
    match m
    case Append(id, batch) => OnAppend(r, id, batch)
    case Commit(id) => (OnCommit(r, id), {})
    case AppendReply(_, _) => (r, {})
  }

  ghost function Received(ms: seq<Message>): (Replica, set<nat>) {
    if ms == [] then (Init(), {})
    else
      var (r, before) := Received(ms[..|ms| - 1]);
      var (r', ids) := Receive(r, ms[|ms| - 1]);
      (r', before + ids)
  }

  ghost predicate FromLeader(all: seq<Batch>, ms: seq<Message>) {
    forall m :: m in ms && m.Append? ==> 1 <= m.id <= |all| && m.batch == all[m.id - 1]
  }

  // The batches sent.
  ghost function Ids(ms: seq<Message>): set<nat> {
    set m | m in ms && m.Append? :: m.id
  }

  // 1 to n is the longest gap-free run.
  ghost predicate Longest(ids: set<nat>, n: nat) {
    n + 1 !in ids && forall i :: 1 <= i <= n ==> i in ids
  }

  // The largest commit received, if any.
  ghost predicate IsLatest(ms: seq<Message>, c: nat) {
    && (c == 0 || Commit(c) in ms)
    && forall id: nat :: Commit(id) in ms ==> id <= c
  }

  // The log is what has been prepared of the batches sent, pending what has not, and
  // perhaps more that has.
  ghost predicate Holds(all: seq<Batch>, ids: set<nat>, r: Replica) {
    && r.log <= all && r.committed == Min(|r.log|, r.commitPoint)
    && (forall i :: 1 <= i <= |r.log| ==> i in ids)
    && (forall id :: id in r.pending ==> id in ids && 1 <= id <= |all| && r.pending[id] == all[id - 1])
    && (forall id :: id in ids && id > |r.log| ==> id in r.pending)
  }

  ghost predicate Settled(all: seq<Batch>, ids: set<nat>, r: Replica) {
    && Holds(all, ids, r) && Longest(ids, |r.log|)
    && (forall id :: id in r.pending ==> id > |r.log|)
  }

  // These are the ids above lo, up to hi.
  ghost predicate Between(ids: set<nat>, lo: nat, hi: nat) {
    lo <= hi && forall id :: id in ids <==> lo < id <= hi
  }

  lemma BetweenMore(ids: set<nat>, lo: nat, hi: nat)
    requires Between(ids, lo + 1, hi)
    ensures Between(ids + {lo + 1}, lo, hi)
  {
  }

  // One turn of the drain: the first pending batch is prepared, dropped or kept.
  lemma TurnHolds(all: seq<Batch>, ids: set<nat>, r: Replica)
    requires Holds(all, ids, r) && r.pending != map[]
    ensures var id: nat := First(r.pending); var rest := r.(pending := r.pending - {id});
      && (id == |r.log| + 1 ==> Holds(all, ids, Prepare(rest, r.pending[id])))
      && (id <= |r.log| ==> Holds(all, ids, rest))
      && (id > |r.log| + 1 ==> Settled(all, ids, r))
  {
    var id: nat := First(r.pending);
    if id == |r.log| + 1 {
      assert r.log + [r.pending[id]] <= all;
    }
  }

  lemma DrainTurn(r: Replica)
    requires r.pending != map[]
    ensures var id: nat := First(r.pending); var rest := r.(pending := r.pending - {id});
      && id in r.pending && |rest.pending| < |r.pending|
      && (id == |r.log| + 1 ==> var (r', ids) := Drain(Prepare(rest, r.pending[id])); Drain(r) == (r', ids + {id}))
      && (id <= |r.log| ==> Drain(r) == Drain(rest))
      && (id > |r.log| + 1 ==> Drain(r) == (r, {}))
  {
    var id: nat := First(r.pending);
    assert r.pending.Keys == (r.pending - {id}).Keys + {id};
  }

  lemma {:induction false} DrainSettles(all: seq<Batch>, ids: set<nat>, r: Replica)
    requires Holds(all, ids, r)
    ensures var (r', replied) := Drain(r);
      && Settled(all, ids, r') && r'.commitPoint == r.commitPoint && r'.quorum == r.quorum
      && Between(replied, |r.log|, |r'.log|)
    decreases |r.pending|
  {
    if r.pending == map[] {
      assert Settled(all, ids, r);
    } else {
      hide Holds, Settled, Drain, First, Between;
      TurnHolds(all, ids, r);
      DrainTurn(r);
      var id: nat := First(r.pending);
      var rest := r.(pending := r.pending - {id});
      if id == |r.log| + 1 {
        DrainSettles(all, ids, Prepare(rest, r.pending[id]));
        var (r', replied) := Drain(Prepare(rest, r.pending[id]));
        BetweenMore(replied, |r.log|, |r'.log|);
      } else if id <= |r.log| {
        DrainSettles(all, ids, rest);
      }
    }
  }

  lemma AppendSettles(all: seq<Batch>, ids: set<nat>, r: Replica, id: nat, batch: Batch)
    requires Settled(all, ids, r) && 1 <= id <= |all| && batch == all[id - 1]
    ensures var (r', replied) := OnAppend(r, id, batch);
      && Settled(all, ids + {id}, r') && r'.commitPoint == r.commitPoint && r'.quorum == r.quorum
      && Between(replied, |r.log|, |r'.log|)
  {
    hide Drain;
    if id == |r.log| + 1 {
      assert r.log + [batch] <= all;
      DrainSettles(all, ids + {id}, Prepare(r, batch));
      var (r', replied) := Drain(Prepare(r, batch));
      BetweenMore(replied, |r.log|, |r'.log|);
    } else if id > |r.log| + 1 {
      DrainSettles(all, ids + {id}, r.(pending := r.pending[id := batch]));
    } else {
      DrainSettles(all, ids + {id}, r);
    }
  }

  lemma IdsNext(ms: seq<Message>, m: Message)
    ensures Ids(ms + [m]) == Ids(ms) + if m.Append? then {m.id} else {}
  {
    forall id | id in Ids(ms)
      ensures id in Ids(ms + [m])
    {
      var x :| x in ms && x.Append? && x.id == id;
      assert x in ms + [m];
    }
    assert m in ms + [m];
  }

  // What a follower has done after any messages of the leader: it has prepared, in
  // order, the longest gap-free run of the batches sent, keeps exactly the others, and
  // has replied for exactly those it has prepared; it has committed what is prepared
  // up to the largest commit.
  lemma {:induction false} FollowerSettles(all: seq<Batch>, ms: seq<Message>)
    requires FromLeader(all, ms)
    ensures var (r, replied) := Received(ms);
      && Longest(Ids(ms), |r.log|) && r.log <= all
      && (forall id :: id in r.pending <==> id in Ids(ms) && id > |r.log|)
      && (forall id :: id in r.pending ==> 1 <= id <= |all| && r.pending[id] == all[id - 1])
      && (forall id :: id in replied <==> 1 <= id <= |r.log|)
      && IsLatest(ms, r.commitPoint) && r.committed == Min(|r.log|, r.commitPoint) && r.quorum == map[]
  {
    hide OnAppend, Ids;
    if ms == [] {
      assert Ids(ms) == {} by {
        NoIds();
      }
    } else {
      var front, m := ms[..|ms| - 1], ms[|ms| - 1];
      assert ms == front + [m];
      FollowerSettles(all, front);
      IdsNext(front, m);
      var (r, before) := Received(front);
      assert m in ms;
      if m.Append? {
        AppendSettles(all, Ids(front), r, m.id, m.batch);
      }
    }
  }

  lemma NoIds()
    ensures Ids([]) == {}
  {
  }

  lemma LongestIsUnique(ids: set<nat>, n: nat, k: nat)
    requires Longest(ids, n) && Longest(ids, k)
    ensures n == k
  {
    assert n < k ==> n + 1 in ids;
    assert k < n ==> k + 1 in ids;
  }

  // Neither order nor repetition matters.
  lemma OrderDoesNotMatter(all: seq<Batch>, ms: seq<Message>, ms': seq<Message>)
    requires FromLeader(all, ms) && forall m :: m in ms <==> m in ms'
    ensures Received(ms) == Received(ms')
  {
    hide Received;
    FollowerSettles(all, ms);
    FollowerSettles(all, ms');
    assert Ids(ms) == Ids(ms');
    var (r, replied) := Received(ms);
    var (r', replied') := Received(ms');
    LongestIsUnique(Ids(ms), |r.log|, |r'.log|);
    assert r.log == r'.log && r.pending == r'.pending && r.commitPoint == r'.commitPoint;
    assert replied == replied';
  }

  // A follower that has been sent the batches 1 to c and the commit of c has
  // committed them.
  lemma FollowerCommits(all: seq<Batch>, ms: seq<Message>, c: nat)
    requires FromLeader(all, ms) && Commit(c) in ms && forall i :: 1 <= i <= c ==> i in Ids(ms)
    ensures var (r, _) := Received(ms); r.committed >= c && c <= |r.log| && c <= |all| && r.log[..c] == all[..c]
  {
    hide Received, Ids;
    FollowerSettles(all, ms);
    var (r, _) := Received(ms);
    assert |r.log| < c ==> |r.log| + 1 in Ids(ms);
  }

  // ---------- followers in a run ----------

  // A follower of a run is what it has received makes of it, and all it has received
  // has been sent; the replies it owes are on the network.
  ghost predicate Explains(s: System, i: nat, ms: seq<Message>)
    requires i < |s.replicas|
  {
    && s.replicas[i] == Received(ms).0
    && (forall m :: m in ms ==> m in s.network)
    && (forall id :: id in Received(ms).1 ==> AppendReply(i, id) in s.network)
  }

  lemma ReceivedMore(ms: seq<Message>, m: Message)
    ensures var (r, before) := Received(ms); var (r', ids) := Receive(r, m); Received(ms + [m]) == (r', before + ids)
  {
    assert (ms + [m])[..|ms|] == ms;
  }

  lemma StepExplained(s: System, s': System, i: nat, ms: seq<Message>) returns (ms': seq<Message>)
    requires Step(s, s') && i < |s.replicas| && i != s.leader && Explains(s, i, ms)
    ensures i < |s'.replicas| && s'.leader == s.leader && Explains(s', i, ms')
  {
    hide OnAppend, OnCommit, OnReply, AppendNewBatch, Received;
    ms' := ms;
    if batch :| BatchStep(s, batch, s') {
    } else if j, m :| AppendStep(s, j, m, s') {
      if j == i {
        ms' := ms + [m];
        ReceivedMore(ms, m);
      }
    } else if m :| ReplyStep(s, m, s') {
    } else {
      var j, m :| CommitStep(s, j, m, s');
      if j == i {
        ms' := ms + [m];
        ReceivedMore(ms, m);
      }
    }
  }

  lemma {:induction false} FollowerInRun(replicaNum: nat, leader: nat, run: seq<System>, k: nat, i: nat) returns (ms: seq<Message>)
    requires Run(replicaNum, leader, run) && k < |run| && i < replicaNum && i != leader
    ensures run[k].leader == leader && leader < |run[k].replicas| && i < |run[k].replicas| && Explains(run[k], i, ms)
    ensures FromLeader(run[k].replicas[leader].log, ms)
    decreases k
  {
    hide Step, Received, Inv;
    if k == 0 {
      ms := [];
      StartExplained(replicaNum, leader, i);
    } else {
      var before := FollowerInRun(replicaNum, leader, run, k - 1, i);
      assert Step(run[k - 1], run[k]);
      ms := StepExplained(run[k - 1], run[k], i, before);
    }
    RunInv(replicaNum, leader, run, k);
    SentByLeader(run[k], ms);
  }

  lemma StartExplained(replicaNum: nat, leader: nat, i: nat)
    requires i < replicaNum
    ensures Explains(Start(replicaNum, leader), i, [])
  {
  }

  lemma SentByLeader(s: System, ms: seq<Message>)
    requires Inv(s) && forall m :: m in ms ==> m in s.network
    ensures s.leader < |s.replicas| && FromLeader(s.replicas[s.leader].log, ms)
  {
    var l := s.replicas[s.leader];
    forall m | m in ms && m.Append?
      ensures 1 <= m.id <= |l.log| && m.batch == l.log[m.id - 1]
    {
      assert MessageOk(s, l.log, l.committed, m);
    }
  }

  // ---------- the leader ----------

  type Reply = (nat, nat)  // replica, batch id

  // The leader after these replies, and the batches whose commit it has sent.
  ghost function Counted(r: Replica, replicaNum: nat, replies: seq<Reply>): (Replica, set<nat>) {
    if replies == [] then (r, {})
    else
      var last := replies[|replies| - 1];
      var (r', sent) := Counted(r, replicaNum, replies[..|replies| - 1]);
      var (r'', done) := OnReply(r', replicaNum, last.0, last.1);
      (r'', sent + if done then {r''.committed} else {})
  }

  ghost function Voters(replies: seq<Reply>, id: nat): set<nat> {
    set p | p in replies && p.1 == id :: p.0
  }

  ghost predicate HasQuorum(replicaNum: nat, replies: seq<Reply>, id: nat) {
    |Voters(replies, id)| >= replicaNum / 2 + 1
  }

  lemma VotersNext(replies: seq<Reply>, p: Reply, id: nat)
    ensures Voters(replies + [p], id) == Voters(replies, id) + if p.1 == id then {p.0} else {}
  {
    forall i | i in Voters(replies, id)
      ensures i in Voters(replies + [p], id)
    {
      assert (i, id) in replies + [p];
    }
    assert p in replies + [p];
  }

  lemma VotersGrow(replicaNum: nat, replies: seq<Reply>, p: Reply)
    ensures forall id :: HasQuorum(replicaNum, replies, id) ==> HasQuorum(replicaNum, replies + [p], id)
    ensures forall id :: id != p.1 ==> Voters(replies + [p], id) == Voters(replies, id)
  {
    hide Voters;
    forall id: nat
      ensures HasQuorum(replicaNum, replies, id) ==> HasQuorum(replicaNum, replies + [p], id)
      ensures id != p.1 ==> Voters(replies + [p], id) == Voters(replies, id)
    {
      VotersNext(replies, p, id);
      SubsetSize(Voters(replies, id), Voters(replies + [p], id));
    }
  }

  // Above the committed batch the table holds exactly the voters.
  ghost predicate TableOk(r: Replica, replies: seq<Reply>) {
    forall id :: id > r.committed ==> Voters(replies, id) == if id in r.quorum then r.quorum[id] else {}
  }

  // The leader has committed the largest batch for which a majority of the replicas
  // has replied, each counted once, in whatever order the replies came; it has sent
  // that commit, and no commit without a majority.
  lemma {:induction false} LeaderSettles(r: Replica, replicaNum: nat, replies: seq<Reply>)
    requires r.committed == r.commitPoint == 0 && r.quorum == map[]
    ensures var (r', sent) := Counted(r, replicaNum, replies);
      && (r'.committed == 0 || HasQuorum(replicaNum, replies, r'.committed))
      && (forall id :: id > 0 && HasQuorum(replicaNum, replies, id) ==> id <= r'.committed)
      && r'.commitPoint == r'.committed && r'.log == r.log && r'.pending == r.pending
      && (r'.committed > 0 ==> r'.committed in sent)
      && (forall id :: id in sent ==> HasQuorum(replicaNum, replies, id))
      && TableOk(r', replies)
  {
    if replies != [] {
      var front, p := replies[..|replies| - 1], replies[|replies| - 1];
      assert replies == front + [p];
      LeaderSettles(r, replicaNum, front);
      CountOne(Counted(r, replicaNum, front).0, replicaNum, front, p);
      VotersGrow(replicaNum, front, p);
    }
  }

  lemma CountOne(r: Replica, replicaNum: nat, replies: seq<Reply>, p: Reply)
    requires TableOk(r, replies) && r.commitPoint == r.committed
    requires forall id :: id > 0 && HasQuorum(replicaNum, replies, id) ==> id <= r.committed
    ensures var (r', done) := OnReply(r, replicaNum, p.0, p.1);
      && TableOk(r', replies + [p]) && r'.commitPoint == r'.committed && r'.log == r.log && r'.pending == r.pending
      && (if done then r'.committed == p.1 > r.committed && HasQuorum(replicaNum, replies + [p], p.1) else r'.committed == r.committed)
      && (forall id :: id > 0 && HasQuorum(replicaNum, replies + [p], id) ==> id <= r'.committed)
  {
    hide Voters;
    VotersGrow(replicaNum, replies, p);
    VotersNext(replies, p, p.1);
    var (r', done) := OnReply(r, replicaNum, p.0, p.1);
    forall id: nat | id > 0 && HasQuorum(replicaNum, replies + [p], id)
      ensures id <= r'.committed
    {
      assert id != p.1 ==> HasQuorum(replicaNum, replies, id);
    }
  }
}
