/**
 DetockService/DetockLogManager.cc: the replicated log of one shard in a fixed view.
 The leader appends batches; followers prepare them in order, keeping those that
 come early, and reply; the leader commits a batch when a quorum has replied.  The
 network keeps every message ever sent and may deliver it any number of times, in
 any order.  The class at the end makes these transitions in place.
 */
module DetockLog {
  import opened Collections

  type Batch = int

  datatype Message =
    | Append(id: nat, batch: Batch)
    | AppendReply(replicaId: nat, id: nat)
    | Commit(id: nat)

  // log holds the batches 1, 2, ..., so preparedLogId_ is its length.
  datatype Replica = Replica(
    log: seq<Batch>, committed: nat, commitPoint: nat,
    pending: map<nat, Batch>, quorum: map<nat, set<nat>>)

  function Init(): Replica {
    Replica([], 0, 0, map[], map[])
  }

  // ---------- what a replica does with a message ----------

  // A batch is prepared: the log grows, and the commit point may cover more of it.
  function Prepare(r: Replica, batch: Batch): Replica {
    r.(log := r.log + [batch], committed := Min(|r.log| + 1, r.commitPoint))
  }

  ghost function First(pending: map<nat, Batch>): (id: nat)
    requires pending != map[]
    ensures IsLeast(pending.Keys, id)
  {
    LeastExists(pending.Keys);
    var id :| IsLeast(pending.Keys, id);
    id
  }

  // ProcessPendingBatches: the result, and the ids replied to.
  ghost function Drain(r: Replica): (Replica, set<nat>)
    decreases |r.pending|
  {
    if r.pending == map[] then (r, {})
    else
      var id: nat := First(r.pending);
      var rest := r.(pending := r.pending - {id});
      if id == |r.log| + 1 then
        var (r', ids) := Drain(Prepare(rest, r.pending[id]));
        (r', ids + {id})
      else if id <= |r.log| then Drain(rest)
      else (r, {})
  }

  ghost function OnAppend(r: Replica, id: nat, batch: Batch): (Replica, set<nat>) {
    if id == |r.log| + 1 then
      var (r', ids) := Drain(Prepare(r, batch));
      (r', ids + {id})
    else if id > |r.log| + 1 then Drain(r.(pending := r.pending[id := batch]))
    else Drain(r)
  }

  // The leader counts a reply; the flag says that the batch is now committed.
  function OnReply(r: Replica, replicaNum: nat, from: nat, id: nat): (Replica, bool) {
    if r.committed >= id then (r, false)
    else
      var voters := (if id in r.quorum then r.quorum[id] else {}) + {from};
      if |voters| >= replicaNum / 2 + 1 then
        (r.(committed := id, commitPoint := id, quorum := r.quorum - {id}), true)
      else (r.(quorum := r.quorum[id := voters]), false)
  }

  function OnCommit(r: Replica, id: nat): Replica {
    if id <= r.commitPoint then r
    else r.(commitPoint := id, committed := Min(|r.log|, id))
  }

  function AppendNewBatch(r: Replica, batch: Batch): Replica {
    r.(log := r.log + [batch])
  }

  // ---------- the system ----------

  datatype System = System(leader: nat, replicas: seq<Replica>, network: set<Message>)

  function Start(replicaNum: nat, leader: nat): System {
    System(leader, seq(replicaNum, _ => Init()), {})
  }

  // The leader starts the next batch and sends it to everyone, itself included.
  ghost predicate BatchStep(s: System, batch: Batch, s': System) {
    && s.leader < |s.replicas|
    && var r := s.replicas[s.leader];
    s' == s.(replicas := s.replicas[s.leader := AppendNewBatch(r, batch)],
             network := s.network + {Append(|r.log| + 1, batch)})
  }

  ghost predicate AppendStep(s: System, i: nat, m: Message, s': System) {
    && i < |s.replicas| && m in s.network && m.Append?
    && var (r, ids) := OnAppend(s.replicas[i], m.id, m.batch);
    s' == s.(replicas := s.replicas[i := r], network := s.network + set id | id in ids :: AppendReply(i, id))
  }

  ghost predicate ReplyStep(s: System, m: Message, s': System) {
    && s.leader < |s.replicas| && m in s.network && m.AppendReply?
    && var (r, done) := OnReply(s.replicas[s.leader], |s.replicas|, m.replicaId, m.id);
    s' == s.(replicas := s.replicas[s.leader := r], network := s.network + if done then {Commit(r.committed)} else {})
  }

  // Commits go to the other replicas.
  ghost predicate CommitStep(s: System, i: nat, m: Message, s': System) {
    && i < |s.replicas| && i != s.leader && m in s.network && m.Commit?
    && s' == s.(replicas := s.replicas[i := OnCommit(s.replicas[i], m.id)])
  }

  ghost predicate Step(s: System, s': System) {
    || (exists batch :: BatchStep(s, batch, s'))
    || (exists i, m :: AppendStep(s, i, m, s'))
    || (exists m :: ReplyStep(s, m, s'))
    || (exists i, m :: CommitStep(s, i, m, s'))
  }

  ghost predicate Run(replicaNum: nat, leader: nat, run: seq<System>) {
    && run != [] && run[0] == Start(replicaNum, leader) && leader < replicaNum
    && forall i, j :: 0 <= i && j == i + 1 && j < |run| ==> Step(run[i], run[j])
  }

  // ---------- the invariant ----------

  // Batches on their way are the leader's.
  ghost predicate PendingOk(all: seq<Batch>, pending: map<nat, Batch>) {
    forall id :: id in pending ==> 1 <= id <= |all| && pending[id] == all[id - 1]
  }

  ghost predicate FollowerOk(all: seq<Batch>, limit: nat, r: Replica) {
    && r.log <= all && PendingOk(all, r.pending)
    && r.commitPoint <= limit && r.committed == Min(|r.log|, r.commitPoint)
  }

  ghost predicate LeaderOk(s: System, r: Replica) {
    && r.pending == map[] && r.committed == r.commitPoint <= |r.log|
    && (forall id, i :: id in r.quorum && i in r.quorum[id] ==> AppendReply(i, id) in s.network)
  }

  ghost predicate MessageOk(s: System, all: seq<Batch>, limit: nat, m: Message) {
    match m
    case Append(id, batch) => 1 <= id <= |all| && batch == all[id - 1]
    case AppendReply(i, id) => i < |s.replicas| && i != s.leader && id <= |s.replicas[i].log|
    case Commit(id) => id <= limit
  }

  // The followers that have prepared the batches 1 to id.
  ghost function Holders(s: System, id: nat): set<nat> {
    set i | 0 <= i < |s.replicas| && i != s.leader && id <= |s.replicas[i].log|
  }

  ghost predicate Inv(s: System) {
    && s.leader < |s.replicas|
    && var l := s.replicas[s.leader];
    && LeaderOk(s, l)
    && (forall i :: 0 <= i < |s.replicas| && i != s.leader ==> FollowerOk(l.log, l.committed, s.replicas[i]))
    && (forall m :: m in s.network ==> MessageOk(s, l.log, l.committed, m))
    && (l.committed > 0 ==> |Holders(s, l.committed)| >= |s.replicas| / 2 + 1)
  }

  // ---------- preservation ----------

  lemma {:induction false} DrainKeeps(all: seq<Batch>, limit: nat, r: Replica)
    requires FollowerOk(all, limit, r)
    ensures var (r', ids) := Drain(r);
      && FollowerOk(all, limit, r') && r.log <= r'.log && r.committed <= r'.committed
      && r'.commitPoint == r.commitPoint && r'.quorum == r.quorum
      && forall id :: id in ids ==> id <= |r'.log|
    decreases |r.pending|
  {
    if r.pending != map[] {
      var id: nat := First(r.pending);
      var rest := r.(pending := r.pending - {id});
      if id == |r.log| + 1 {
        assert r.log + [r.pending[id]] <= all;
        DrainKeeps(all, limit, Prepare(rest, r.pending[id]));
      } else if id <= |r.log| {
        DrainKeeps(all, limit, rest);
      }
    }
  }

  lemma AppendKeeps(all: seq<Batch>, limit: nat, r: Replica, id: nat, batch: Batch)
    requires FollowerOk(all, limit, r) && 1 <= id <= |all| && batch == all[id - 1]
    ensures var (r', ids) := OnAppend(r, id, batch);
      && FollowerOk(all, limit, r') && r.log <= r'.log && r.committed <= r'.committed
      && forall i :: i in ids ==> i <= |r'.log|
  {
    hide Drain;
    if id == |r.log| + 1 {
      assert r.log + [batch] <= all;
      DrainKeeps(all, limit, Prepare(r, batch));
    } else if id > |r.log| + 1 {
      DrainKeeps(all, limit, r.(pending := r.pending[id := batch]));
    } else {
      DrainKeeps(all, limit, r);
    }
  }

  // The leader ignores its own appends.
  lemma LeaderIgnoresAppend(r: Replica, id: nat, batch: Batch)
    requires r.pending == map[] && id <= |r.log|
    ensures OnAppend(r, id, batch) == (r, {})
  {
  }

  // Logs and committed ids never shrink.
  ghost predicate Grows(s: System, s': System) {
    && |s'.replicas| == |s.replicas|
    && forall i :: 0 <= i < |s.replicas| ==> s.replicas[i].log <= s'.replicas[i].log && s.replicas[i].committed <= s'.replicas[i].committed
  }

  // A follower's log only grows; nobody stops holding what it has prepared.
  lemma FollowerStep(s: System, i: nat, r: Replica, sent: set<Message>)
    requires Inv(s) && i < |s.replicas| && i != s.leader
    requires var l := s.replicas[s.leader]; FollowerOk(l.log, l.committed, r) && s.replicas[i].log <= r.log && s.replicas[i].committed <= r.committed
    requires forall m :: m in sent ==> m.AppendReply? && m.replicaId == i && m.id <= |r.log|
    ensures Inv(s.(replicas := s.replicas[i := r], network := s.network + sent))
    ensures Grows(s, s.(replicas := s.replicas[i := r], network := s.network + sent))
  {
    hide FollowerOk;
    var s' := s.(replicas := s.replicas[i := r], network := s.network + sent);
    var l := s.replicas[s.leader];
    SubsetSize(Holders(s, l.committed), Holders(s', l.committed));
    forall m | m in s'.network
      ensures MessageOk(s', l.log, l.committed, m)
    {
      assert m in s.network ==> MessageOk(s, l.log, l.committed, m);
    }
  }

  lemma AppendStepKeeps(s: System, i: nat, m: Message, s': System)
    requires Inv(s) && AppendStep(s, i, m, s')
    ensures Inv(s') && Grows(s, s')
  {
    hide FollowerOk, LeaderOk, OnAppend, Holders;
    var l := s.replicas[s.leader];
    assert MessageOk(s, l.log, l.committed, m);
    var (r, ids) := OnAppend(s.replicas[i], m.id, m.batch);
    if i == s.leader {
      LeaderHasNone(s, l);
      LeaderIgnoresAppend(l, m.id, m.batch);
      assert s' == s;
    } else {
      AppendKeeps(l.log, l.committed, s.replicas[i], m.id, m.batch);
      FollowerStep(s, i, r, set id | id in ids :: AppendReply(i, id));
    }
  }

  lemma LeaderHasNone(s: System, r: Replica)
    requires LeaderOk(s, r)
    ensures r.pending == map[]
  {
  }

  lemma CommitKeeps(all: seq<Batch>, limit: nat, r: Replica, id: nat)
    requires FollowerOk(all, limit, r) && id <= limit
    ensures FollowerOk(all, limit, OnCommit(r, id)) && OnCommit(r, id).log == r.log && r.committed <= OnCommit(r, id).committed
  {
  }

  lemma CommitStepKeeps(s: System, i: nat, m: Message, s': System)
    requires Inv(s) && CommitStep(s, i, m, s')
    ensures Inv(s') && Grows(s, s')
  {
    hide FollowerOk, LeaderOk, OnCommit, Holders;
    var l := s.replicas[s.leader];
    assert MessageOk(s, l.log, l.committed, m);
    CommitKeeps(l.log, l.committed, s.replicas[i], m.id);
    FollowerStep(s, i, OnCommit(s.replicas[i], m.id), {});
    assert s'.network == s.network + {};
  }

  lemma BatchStepKeeps(s: System, batch: Batch, s': System)
    requires Inv(s) && BatchStep(s, batch, s')
    ensures Inv(s') && Grows(s, s')
  {
    var l := s.replicas[s.leader];
    assert Holders(s', l.committed) == Holders(s, l.committed);
    forall m | m in s'.network
      ensures MessageOk(s', l.log + [batch], l.committed, m)
    {
      assert m in s.network ==> MessageOk(s, l.log, l.committed, m);
    }
  }

  // The quorum that commits a batch holds it.
  lemma VotersHold(s: System, l: Replica, m: Message, id: nat)
    requires Inv(s) && l == s.replicas[s.leader] && m in s.network && m.AppendReply? && id == m.id
    requires var (r, done) := OnReply(l, |s.replicas|, m.replicaId, id); done
    ensures |Holders(s, id)| >= |s.replicas| / 2 + 1 && l.committed < id <= |l.log|
  {
    hide FollowerOk;
    var voters := (if id in l.quorum then l.quorum[id] else {}) + {m.replicaId};
    forall i | i in voters
      ensures i in Holders(s, id)
    {
      assert AppendReply(i, id) in s.network;
      assert MessageOk(s, l.log, l.committed, AppendReply(i, id));
    }
    SubsetSize(voters, Holders(s, id));
    assert FollowerOk(l.log, l.committed, s.replicas[m.replicaId]);
    FollowerShorter(l.log, l.committed, s.replicas[m.replicaId]);
  }

  lemma FollowerShorter(all: seq<Batch>, limit: nat, r: Replica)
    requires FollowerOk(all, limit, r)
    ensures |r.log| <= |all| && forall more: nat :: more >= limit ==> FollowerOk(all, more, r)
  {
  }

  lemma ReplyStepKeeps(s: System, m: Message, s': System)
    requires Inv(s) && ReplyStep(s, m, s')
    ensures Inv(s') && Grows(s, s')
  {
    hide FollowerOk, Holders;
    var l := s.replicas[s.leader];
    var l' := s'.replicas[s.leader];
    var (r, done) := OnReply(l, |s.replicas|, m.replicaId, m.id);
    if done {
      VotersHold(s, l, m, m.id);
    }
    assert l.committed <= l'.committed;
    HoldersSame(s, s', l'.committed);
    forall i | 0 <= i < |s.replicas| && i != s.leader
      ensures FollowerOk(l'.log, l'.committed, s'.replicas[i])
    {
      FollowerShorter(l.log, l.committed, s.replicas[i]);
    }
    forall n | n in s'.network
      ensures MessageOk(s', l'.log, l'.committed, n)
    {
      assert n in s.network ==> MessageOk(s, l.log, l.committed, n);
    }
  }

  // Holders are followers, so a change of the leader does not matter.
  lemma HoldersSame(s: System, s': System, id: nat)
    requires |s'.replicas| == |s.replicas| && s'.leader == s.leader
    requires forall i :: 0 <= i < |s.replicas| && i != s.leader ==> s'.replicas[i] == s.replicas[i]
    ensures Holders(s', id) == Holders(s, id)
  {
  }

  lemma StepKeeps(s: System, s': System)
    requires Inv(s) && Step(s, s')
    ensures Inv(s') && Grows(s, s')
  {
    hide Inv, Grows, BatchStep, AppendStep, ReplyStep, CommitStep;
    if batch :| BatchStep(s, batch, s') {
      BatchStepKeeps(s, batch, s');
    } else if i, m :| AppendStep(s, i, m, s') {
      AppendStepKeeps(s, i, m, s');
    } else if m :| ReplyStep(s, m, s') {
      ReplyStepKeeps(s, m, s');
    } else {
      var i, m :| CommitStep(s, i, m, s');
      CommitStepKeeps(s, i, m, s');
    }
  }

  lemma {:induction false} RunInv(replicaNum: nat, leader: nat, run: seq<System>, k: nat)
    requires Run(replicaNum, leader, run) && k < |run|
    ensures Inv(run[k]) && run[k].leader == leader && |run[k].replicas| == replicaNum
    decreases k
  {
    hide Step;
    if k > 0 {
      RunInv(replicaNum, leader, run, k - 1);
      StepKeeps(run[k - 1], run[k]);
      StepShape(run[k - 1], run[k]);
    }
  }

  lemma StepShape(s: System, s': System)
    requires Step(s, s')
    ensures s'.leader == s.leader && |s'.replicas| == |s.replicas|
  {
  }

  // ---------- the properties ----------

  // Every log is a prefix of the leader's, and at most what is prepared is committed.
  lemma LogsArePrefixes(replicaNum: nat, leader: nat, run: seq<System>, k: nat, i: nat)
    requires Run(replicaNum, leader, run) && k < |run| && i < replicaNum
    ensures leader < |run[k].replicas| && i < |run[k].replicas|
    ensures run[k].replicas[i].log <= run[k].replicas[leader].log
    ensures run[k].replicas[i].committed <= |run[k].replicas[i].log|
    ensures run[k].replicas[i].committed <= run[k].replicas[leader].committed
  {
    RunInv(replicaNum, leader, run, k);
    var l := run[k].replicas[leader];
    if i != leader {
      assert FollowerOk(l.log, l.committed, run[k].replicas[i]);
    }
  }

  // Any two replicas agree on what both have committed.
  lemma CommittedAgree(replicaNum: nat, leader: nat, run: seq<System>, k: nat, i: nat, j: nat, b: nat)
    requires Run(replicaNum, leader, run) && k < |run| && i < replicaNum && j < replicaNum
    ensures i < |run[k].replicas| && j < |run[k].replicas|
    ensures b < run[k].replicas[i].committed && b < run[k].replicas[j].committed ==>
              b < |run[k].replicas[i].log| && b < |run[k].replicas[j].log|
              && run[k].replicas[i].log[b] == run[k].replicas[j].log[b]
  {
    LogsArePrefixes(replicaNum, leader, run, k, i);
    LogsArePrefixes(replicaNum, leader, run, k, j);
  }

  // When the leader has committed batch c, a majority of replicas, not counting the
  // leader itself, hold the batches 1 to c.
  lemma CommitNeedsMajority(replicaNum: nat, leader: nat, run: seq<System>, k: nat) returns (holders: set<nat>)
    requires Run(replicaNum, leader, run) && k < |run|
    ensures leader < |run[k].replicas| == replicaNum
    ensures run[k].replicas[leader].committed > 0 ==> |holders| >= replicaNum / 2 + 1
    ensures leader !in holders
    ensures var l := run[k].replicas[leader];
      forall i :: i in holders ==> i < replicaNum && l.committed <= |run[k].replicas[i].log| && l.committed <= |l.log|
                                   && run[k].replicas[i].log[..l.committed] == l.log[..l.committed]
  {
    RunInv(replicaNum, leader, run, k);
    var l := run[k].replicas[leader];
    holders := Holders(run[k], l.committed);
    forall i | i in holders
      ensures run[k].replicas[i].log[..l.committed] == l.log[..l.committed]
    {
      LogsArePrefixes(replicaNum, leader, run, k, i);
    }
  }

  // The leader never votes, so with one or two replicas nothing is ever committed.
  lemma SmallGroupNeverCommits(replicaNum: nat, leader: nat, run: seq<System>, k: nat)
    requires Run(replicaNum, leader, run) && k < |run| && replicaNum <= 2
    ensures leader < |run[k].replicas| && run[k].replicas[leader].committed == 0
  {
    var holders := CommitNeedsMajority(replicaNum, leader, run, k);
    SubsetSize(holders, {0, 1} - {leader});
    assert {0, 1} == {leader} + ({0, 1} - {leader});
  }

  // ---------- when a batch can be committed ----------

  // The followers among the first k replicas.
  ghost function Followers(leader: nat, k: nat): (followers: set<nat>)
    ensures forall i :: i in followers <==> 0 <= i < k && i != leader
    ensures |followers| == if leader < k then k - 1 else k
    decreases k
  {
    if k == 0 then {} else Followers(leader, k - 1) + if k - 1 == leader then {} else {k - 1}
  }

  // One batch has been prepared by the leader and the first k replicas.
  ghost function HoldingOne(replicaNum: nat, leader: nat, batch: Batch, k: nat): (replicas: seq<Replica>)
    ensures |replicas| == replicaNum
    ensures forall i :: 0 <= i < replicaNum ==> replicas[i] == if i < k || i == leader then Replica([batch], 0, 0, map[], map[]) else Init()
  {
    seq(replicaNum, i => if i < k || i == leader then Replica([batch], 0, 0, map[], map[]) else Init())
  }

  ghost function Delivered(replicaNum: nat, leader: nat, batch: Batch, k: nat): System {
    System(leader, HoldingOne(replicaNum, leader, batch, k),
           {Append(1, batch)} + set i | i in Followers(leader, k) :: AppendReply(i, 1))
  }

  // The leader's state when these have voted, too few to commit.
  ghost function Voted(batch: Batch, voters: set<nat>): Replica {
    Replica([batch], 0, 0, map[], if voters == {} then map[] else map[1 := voters])
  }

  ghost function Counted(replicaNum: nat, leader: nat, batch: Batch, voters: set<nat>): (s: System)
    requires leader < replicaNum
    ensures |s.replicas| == replicaNum
  {
    var s := Delivered(replicaNum, leader, batch, replicaNum);
    s.(replicas := s.replicas[leader := Voted(batch, voters)])
  }

  ghost predicate Reached(replicaNum: nat, leader: nat, s: System) {
    exists run :: Run(replicaNum, leader, run) && run[|run| - 1] == s
  }

  lemma ReachedMore(replicaNum: nat, leader: nat, s: System, s': System)
    requires Reached(replicaNum, leader, s) && Step(s, s')
    ensures Reached(replicaNum, leader, s')
  {
    hide Step;
    var run :| Run(replicaNum, leader, run) && run[|run| - 1] == s;
    assert Run(replicaNum, leader, run + [s']);
  }

  // The first batch is appended once.
  lemma AppendFirst(batch: Batch)
    ensures var one := Replica([batch], 0, 0, map[], map[]);
      OnAppend(Init(), 1, batch) == (one, {1}) && OnAppend(one, 1, batch) == (one, {})
  {
    assert Init().log + [batch] == [batch];
    DrainNothing(Prepare(Init(), batch));
    assert Drain(Prepare(Init(), batch)).1 + {1} == {1};
    DrainNothing(Replica([batch], 0, 0, map[], map[]));
  }

  lemma DrainNothing(r: Replica)
    requires r.pending == map[]
    ensures Drain(r) == (r, {})
  {
  }

  lemma SentNext(leader: nat, k: nat, ids: set<nat>)
    requires ids == if k == leader then {} else {1}
    ensures (set i | i in Followers(leader, k + 1) :: AppendReply(i, 1))
            == (set i | i in Followers(leader, k) :: AppendReply(i, 1)) + (set id | id in ids :: AppendReply(k, id))
  {
    hide Followers;
    var now, next := set i | i in Followers(leader, k) :: AppendReply(i, 1), set i | i in Followers(leader, k + 1) :: AppendReply(i, 1);
    forall m | m in next
      ensures m in now + set id | id in ids :: AppendReply(k, id)
    {
      assert m.replicaId in Followers(leader, k + 1);
    }
  }

  lemma DeliverNext(replicaNum: nat, leader: nat, batch: Batch, k: nat)
    requires leader < replicaNum && k < replicaNum
    ensures AppendStep(Delivered(replicaNum, leader, batch, k), k, Append(1, batch), Delivered(replicaNum, leader, batch, k + 1))
  {
    hide OnAppend, Followers;
    AppendFirst(batch);
    var s, s' := Delivered(replicaNum, leader, batch, k), Delivered(replicaNum, leader, batch, k + 1);
    var (r, ids) := OnAppend(s.replicas[k], 1, batch);
    assert s'.replicas == s.replicas[k := r];
    SentNext(leader, k, ids);
    assert s'.network == s.network + set id | id in ids :: AppendReply(k, id);
  }

  lemma {:induction false} DeliveredIsReached(replicaNum: nat, leader: nat, batch: Batch, k: nat)
    requires leader < replicaNum && k <= replicaNum
    ensures Reached(replicaNum, leader, Delivered(replicaNum, leader, batch, k))
  {
    hide Reached, AppendStep, Step, Delivered;
    if k == 0 {
      SentIsReached(replicaNum, leader, batch);
    } else {
      DeliveredIsReached(replicaNum, leader, batch, k - 1);
      DeliverNext(replicaNum, leader, batch, k - 1);
      AppendIsStep(Delivered(replicaNum, leader, batch, k - 1), k - 1, Append(1, batch), Delivered(replicaNum, leader, batch, k));
      ReachedMore(replicaNum, leader, Delivered(replicaNum, leader, batch, k - 1), Delivered(replicaNum, leader, batch, k));
    }
  }

  lemma AppendIsStep(s: System, i: nat, m: Message, s': System)
    requires AppendStep(s, i, m, s')
    ensures Step(s, s')
  {
  }

  lemma SentIsReached(replicaNum: nat, leader: nat, batch: Batch)
    requires leader < replicaNum
    ensures Reached(replicaNum, leader, Delivered(replicaNum, leader, batch, 0))
  {
    var s, s' := Start(replicaNum, leader), Delivered(replicaNum, leader, batch, 0);
    assert Init().log + [batch] == [batch];
    assert s'.replicas == s.replicas[leader := AppendNewBatch(s.replicas[leader], batch)];
    assert BatchStep(s, batch, s');
    assert Run(replicaNum, leader, [s]);
    ReachedMore(replicaNum, leader, s, s');
  }

  // One more vote either is not enough or commits the batch.
  lemma VoteCounts(batch: Batch, replicaNum: nat, voters: set<nat>, from: nat)
    ensures var more := voters + {from};
      OnReply(Voted(batch, voters), replicaNum, from, 1)
      == if |more| >= replicaNum / 2 + 1 then (Replica([batch], 1, 1, map[], map[]), true) else (Voted(batch, more), false)
  {
    var more := voters + {from};
    assert map[1 := voters] - {1} == map[];
    assert map[1 := voters][1 := more] == map[][1 := more];
  }

  lemma CountNext(replicaNum: nat, leader: nat, batch: Batch, voters: set<nat>, k: nat) returns (s': System)
    requires leader < replicaNum && k < replicaNum && k != leader
    ensures Step(Counted(replicaNum, leader, batch, voters), s') && |s'.replicas| == replicaNum
    ensures if |voters + {k}| >= replicaNum / 2 + 1 then s'.replicas[leader].committed == 1
            else s' == Counted(replicaNum, leader, batch, voters + {k})
  {
    hide OnReply, Voted;
    var s := Counted(replicaNum, leader, batch, voters);
    var (r, done) := OnReply(s.replicas[leader], replicaNum, k, 1);
    VoteCounts(batch, replicaNum, voters, k);
    s' := s.(replicas := s.replicas[leader := r], network := s.network + if done then {Commit(r.committed)} else {});
    assert k in Followers(leader, replicaNum);
    assert ReplyStep(s, AppendReply(k, 1), s');
    if !done {
      assert s'.network == s.network;
      assert s'.replicas == Counted(replicaNum, leader, batch, voters + {k}).replicas;
    }
  }

  lemma NoVotesYet(replicaNum: nat, leader: nat, batch: Batch)
    requires leader < replicaNum
    ensures Counted(replicaNum, leader, batch, {}) == Delivered(replicaNum, leader, batch, replicaNum)
  {
    var s := Delivered(replicaNum, leader, batch, replicaNum);
    assert s.replicas[leader := Voted(batch, {})] == s.replicas;
  }

  lemma {:induction false} CountingCommits(replicaNum: nat, leader: nat, batch: Batch, k: nat) returns (s: System)
    requires leader < replicaNum && k <= replicaNum
    ensures Reached(replicaNum, leader, s) && |s.replicas| == replicaNum
    ensures if |Followers(leader, k)| >= replicaNum / 2 + 1 then s.replicas[leader].committed == 1
            else s == Counted(replicaNum, leader, batch, Followers(leader, k))
    decreases k
  {
    hide Reached, Step, Delivered, Counted, Followers;
    if k == 0 {
      s := Delivered(replicaNum, leader, batch, replicaNum);
      DeliveredIsReached(replicaNum, leader, batch, replicaNum);
      NoVotesYet(replicaNum, leader, batch);
    } else {
      s := CountingCommits(replicaNum, leader, batch, k - 1);
      var voters := Followers(leader, k - 1);
      if k - 1 == leader {
        assert Followers(leader, k) == voters;
      } else if |voters| < replicaNum / 2 + 1 {
        var before := s;
        assert Followers(leader, k) == voters + {k - 1};
        s := CountNext(replicaNum, leader, batch, voters, k - 1);
        ReachedMore(replicaNum, leader, before, s);
      }
    }
  }

  ghost predicate CanCommit(replicaNum: nat, leader: nat) {
    exists s :: Reached(replicaNum, leader, s) && leader < |s.replicas| && s.replicas[leader].committed > 0
  }

  // The leader never votes: a group can commit anything exactly if it has three or
  // more replicas.
  lemma CommitsIffThree(replicaNum: nat, leader: nat)
    requires leader < replicaNum
    ensures CanCommit(replicaNum, leader) <==> replicaNum >= 3
  {
    if replicaNum >= 3 {
      var s := CountingCommits(replicaNum, leader, 0, replicaNum);
      assert s.replicas[leader].committed > 0;
    } else if CanCommit(replicaNum, leader) {
      var s :| Reached(replicaNum, leader, s) && leader < |s.replicas| && s.replicas[leader].committed > 0;
      var run :| Run(replicaNum, leader, run) && run[|run| - 1] == s;
      SmallGroupNeverCommits(replicaNum, leader, run, |run| - 1);
    }
  }

  // Logs and committed ids never shrink.
  lemma {:induction false} NeverShrinks(replicaNum: nat, leader: nat, run: seq<System>, j: nat, k: nat, i: nat)
    requires Run(replicaNum, leader, run) && j <= k < |run| && i < replicaNum
    ensures i < |run[j].replicas| && i < |run[k].replicas|
    ensures run[j].replicas[i].log <= run[k].replicas[i].log && run[j].replicas[i].committed <= run[k].replicas[i].committed
    decreases k
  {
    hide Inv, Step;
    RunInv(replicaNum, leader, run, j);
    if j < k {
      NeverShrinks(replicaNum, leader, run, j, k - 1, i);
      RunInv(replicaNum, leader, run, k - 1);
      StepKeeps(run[k - 1], run[k]);
    }
  }

  // ---------- the log manager ----------

  // The transitions above, made in place.  Messages of another view are ignored.
  class DetockLogManager {
    const viewId: nat
    const replicaId: nat
    const replicaNum: nat
    var detockLogList: seq<Batch>
    var preparedLogId: nat
    var committedLogId: nat
    var pendingCommitPoint: nat
    var pendingBatches: map<nat, Batch>
    var quorumInfo: map<nat, set<nat>>

    ghost function View(): Replica
      reads this
    {
      Replica(detockLogList, committedLogId, pendingCommitPoint, pendingBatches, quorumInfo)
    }

    ghost predicate Valid()
      reads this
    {
      preparedLogId == |detockLogList|
    }

    constructor (viewId: nat, replicaId: nat, replicaNum: nat)
      ensures Valid() && View() == Init()
      ensures this.viewId == viewId && this.replicaId == replicaId && this.replicaNum == replicaNum
    {
      this.viewId, this.replicaId, this.replicaNum := viewId, replicaId, replicaNum;
      detockLogList, preparedLogId, committedLogId, pendingCommitPoint := [], 0, 0, 0;
      pendingBatches, quorumInfo := map[], map[];
    }

    // Pushes a batch onto the log.
    method Push(batch: Batch)
      requires Valid()
      modifies this`detockLogList, this`preparedLogId, this`committedLogId
      ensures Valid() && View() == Prepare(old(View()), batch)
    {
      detockLogList := detockLogList + [batch];
      preparedLogId := preparedLogId + 1;
      committedLogId := Min(preparedLogId, pendingCommitPoint);
    }

    // begin() of the pending map.
    method Begin() returns (id: nat)
      requires pendingBatches != map[]
      ensures id == First(pendingBatches)
    {
      LeastExists(pendingBatches.Keys);
      id :| id in pendingBatches && IsLeast(pendingBatches.Keys, id);
    }

    method ProcessPendingBatches() returns (replies: set<nat>)
      requires Valid()
      modifies this
      ensures Valid() && (View(), replies) == Drain(old(View()))
    {
      hide Prepare, IsLeast;
      replies := {};
      ghost var start := View();
      while pendingBatches != map[]
        invariant Valid()
        invariant Drain(start).0 == Drain(View()).0 && Drain(start).1 == Drain(View()).1 + replies
        decreases |pendingBatches|
      {
        ghost var r := View();
        var id := Begin();
        FirstIn(pendingBatches);
        if preparedLogId + 1 == id {
          var batch := pendingBatches[id];
          pendingBatches := pendingBatches - {id};
          Push(batch);
          PrepareKeepsPending(r.(pending := r.pending - {id}), batch);
          replies := replies + {id};
        } else if preparedLogId >= id {
          pendingBatches := pendingBatches - {id};
        } else {
          break;
        }
      }
    }

    method OnDetockPaxosAppend(view: nat, id: nat, batch: Batch) returns (replies: set<nat>)
      requires Valid()
      modifies this
      ensures Valid()
      ensures (View(), replies) == if view == viewId then OnAppend(old(View()), id, batch) else (old(View()), {})
    {
      hide Drain;
      replies := {};
      if view != viewId {
        return;
      }
      var first := {};
      if preparedLogId + 1 == id {
        Push(batch);
        first := {id};
      } else if preparedLogId + 1 < id {
        pendingBatches := pendingBatches[id := batch];
      }
      var more := ProcessPendingBatches();
      replies := more + first;
      assert more + {} == more;
    }

    method OnDetockPaxosAppendReply(view: nat, from: nat, id: nat) returns (commit: bool)
      requires Valid()
      modifies this`committedLogId, this`pendingCommitPoint, this`quorumInfo
      ensures Valid()
      ensures (View(), commit) == if view == viewId then OnReply(old(View()), replicaNum, from, id) else (old(View()), false)
    {
      commit := false;
      if view != viewId || committedLogId >= id {
        return;
      }
      if id !in quorumInfo {
        quorumInfo := quorumInfo[id := {}];
      }
      quorumInfo := quorumInfo[id := quorumInfo[id] + {from}];
      assert quorumInfo == old(quorumInfo)[id := quorumInfo[id]];
      if |quorumInfo[id]| >= replicaNum / 2 + 1 {
        committedLogId := Max(committedLogId, id);
        pendingCommitPoint := committedLogId;
        quorumInfo := quorumInfo - {id};
        commit := true;
        EraseUpdated(old(quorumInfo), quorumInfo, id);
      }
    }

    method OnDetockPaxosCommit(view: nat, id: nat)
      requires Valid()
      modifies this`committedLogId, this`pendingCommitPoint
      ensures Valid() && View() == if view == viewId then OnCommit(old(View()), id) else old(View())
    {
      if view != viewId || id <= pendingCommitPoint {
        return;
      }
      pendingCommitPoint := id;
      committedLogId := Min(preparedLogId, pendingCommitPoint);
    }

    method AppendBatch(batch: Batch) returns (sent: Message)
      requires Valid()
      modifies this`detockLogList, this`preparedLogId
      ensures Valid() && View() == AppendNewBatch(old(View()), batch) && sent == Append(old(preparedLogId) + 1, batch)
    {
      detockLogList := detockLogList + [batch];
      preparedLogId := preparedLogId + 1;
      sent := Append(preparedLogId, batch);
    }
  }

  lemma FirstIn(pending: map<nat, Batch>)
    requires pending != map[]
    ensures First(pending) in pending
  {
  }

  lemma PrepareKeepsPending(r: Replica, batch: Batch)
    ensures Prepare(r, batch).pending == r.pending
  {
  }

  lemma EraseUpdated(before: map<nat, set<nat>>, after: map<nat, set<nat>>, id: nat)
    requires after.Keys == before.Keys - {id} && forall i :: i in after ==> after[i] == before[i]
    ensures after == before - {id}
  {
  }
}
