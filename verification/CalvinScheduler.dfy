/**
 CalvinService/CalvinScheduler.cc: epochs arrive in any order and are executed in
 one: by sequence number, then by shard, without gaps.  What arrives early is kept
 in a map ordered by key and drained from its front.
 */
module CalvinScheduler {
  import opened Collections
  import opened Words

  type Key = Pair  // sequence number, then shard

  // cmds stands for the transactions of the epoch.
  datatype Epoch = Epoch(seqNo: nat, shardId: nat, cmds: seq<int>)

  function KeyOf(e: Epoch): Key {
    (e.seqNo, e.shardId)
  }

  // The i-th key in the canonical order of n shards, from (1, 0) on.
  function KeyAt(n: nat, i: nat): Key
    requires n > 0
  {
    (i / n + 1, i % n)
  }

  // nextEpochKey_ advances through that order.
  function Advance(n: nat, k: Key): Key
    requires n > 0
  {
    if k.1 == n - 1 then (k.0 + 1, 0) else (k.0, k.1 + 1)
  }

  lemma AdvanceIsNext(n: nat, i: nat)
    requires n > 0
    ensures KeyAt(n, i + 1) == Advance(n, KeyAt(n, i))
  {
    var q, r := i / n, i % n;
    assert i == q * n + r;
    if r == n - 1 {
      assert i + 1 == (q + 1) * n;
      DivisionIsUnique(i + 1, n, q + 1, 0);
    } else {
      DivisionIsUnique(i + 1, n, q, r + 1);
    }
  }

  lemma {:induction false} KeysIncrease(n: nat, i: nat, j: nat)
    requires n > 0 && i < j
    ensures Before(KeyAt(n, i), KeyAt(n, j))
    decreases j
  {
    hide KeyAt;
    AdvanceIsNext(n, j - 1);
    if i < j - 1 {
      KeysIncrease(n, i, j - 1);
    }
  }

  // Every key with a possible shard has a place in the order.
  lemma KeyHasIndex(n: nat, k: Key) returns (i: nat)
    requires n > 0 && k.0 >= 1 && k.1 < n
    ensures KeyAt(n, i) == k
  {
    i := (k.0 - 1) * n + k.1;
    DivisionIsUnique(i, n, k.0 - 1, k.1);
  }

  // ---------- the scheduler as a value ----------

  // The next key to execute is the one at position |executed|.
  datatype State = State(executed: seq<Epoch>, pending: map<Key, Epoch>)

  ghost function First(pending: map<Key, Epoch>): (k: Key)
    requires pending != map[]
    ensures IsLeastPair(pending.Keys, k)
  {
    LeastPairExists(pending.Keys);
    var k :| IsLeastPair(pending.Keys, k);
    k
  }

  // ProcessPendingEpochEntries.
  ghost function Drain(n: nat, s: State): State
    requires n > 0
    decreases |s.pending|
  {
    if s.pending == map[] then s
    else
      var k := First(s.pending);
      if k == KeyAt(n, |s.executed|) then Drain(n, State(s.executed + [s.pending[k]], s.pending - {k}))
      else s
  }

  ghost function OnEpoch(n: nat, s: State, e: Epoch): State
    requires n > 0
  {
    if KeyOf(e) == KeyAt(n, |s.executed|) then Drain(n, s.(executed := s.executed + [e]))
    else Drain(n, s.(pending := s.pending[KeyOf(e) := e]))
  }

  ghost function Deliver(n: nat, es: seq<Epoch>): State
    requires n > 0
  {
    if es == [] then State([], map[]) else OnEpoch(n, Deliver(n, es[..|es| - 1]), es[|es| - 1])
  }

  // ---------- what is executed ----------

  // In canonical order without gaps, whatever has been delivered.
  ghost predicate InOrder(n: nat, executed: seq<Epoch>)
    requires n > 0
  {
    forall i :: 0 <= i < |executed| ==> KeyOf(executed[i]) == KeyAt(n, i)
  }

  ghost predicate KeysOk(pending: map<Key, Epoch>) {
    forall k :: k in pending ==> KeyOf(pending[k]) == k
  }

  // An epoch whose turn has passed sits in the map, in front of all others.
  ghost predicate Stale(n: nat, s: State)
    requires n > 0
  {
    exists k :: k in s.pending && Before(k, KeyAt(n, |s.executed|))
  }

  lemma {:induction false} DrainKeepsOrder(n: nat, s: State)
    requires n > 0 && InOrder(n, s.executed) && KeysOk(s.pending)
    ensures var r := Drain(n, s);
      InOrder(n, r.executed) && KeysOk(r.pending) && s.executed <= r.executed
    decreases |s.pending|
  {
    hide KeyAt;
    if s.pending != map[] {
      var k := First(s.pending);
      if k == KeyAt(n, |s.executed|) {
        DrainKeepsOrder(n, State(s.executed + [s.pending[k]], s.pending - {k}));
      }
    }
  }

  // At every moment, even if epochs are repeated.
  lemma {:induction false} ExecutedInOrder(n: nat, es: seq<Epoch>)
    requires n > 0
    ensures InOrder(n, Deliver(n, es).executed) && KeysOk(Deliver(n, es).pending)
  {
    hide KeyAt, Drain;
    if es != [] {
      ExecutedInOrder(n, es[..|es| - 1]);
      var s, e := Deliver(n, es[..|es| - 1]), es[|es| - 1];
      if KeyOf(e) == KeyAt(n, |s.executed|) {
        DrainKeepsOrder(n, s.(executed := s.executed + [e]));
      } else {
        DrainKeepsOrder(n, s.(pending := s.pending[KeyOf(e) := e]));
      }
    }
  }

  // ---------- each epoch once ----------

  // The epochs of a set with one per key, of shards that exist.
  ghost predicate IsEpochSet(n: nat, all: map<Key, Epoch>) {
    forall k :: k in all ==> KeyOf(all[k]) == k && k.0 >= 1 && k.1 < n
  }

  // Executed is the longest run without a gap, pending is exactly the rest.
  ghost predicate Settled(n: nat, all: map<Key, Epoch>, s: State)
    requires n > 0
  {
    && (forall i :: 0 <= i < |s.executed| ==> KeyAt(n, i) in all && s.executed[i] == all[KeyAt(n, i)])
    && KeyAt(n, |s.executed|) !in all
    && s.pending == Later(n, all, |s.executed|)
  }

  ghost function Later(n: nat, all: map<Key, Epoch>, m: nat): map<Key, Epoch>
    requires n > 0
  {
    map k | k in all && !Before(k, KeyAt(n, m)) :: all[k]
  }

  // Only one state is settled for a set of epochs.
  lemma SettledIsUnique(n: nat, all: map<Key, Epoch>, a: State, b: State)
    requires n > 0 && Settled(n, all, a) && Settled(n, all, b)
    ensures a == b
  {
  }

  // Between draining steps: as settled, but the next epoch may be there.
  ghost predicate Draining(n: nat, all: map<Key, Epoch>, s: State)
    requires n > 0
  {
    && (forall i :: 0 <= i < |s.executed| ==> KeyAt(n, i) in all && s.executed[i] == all[KeyAt(n, i)])
    && s.pending == Later(n, all, |s.executed|)
  }

  lemma LaterStep(n: nat, all: map<Key, Epoch>, m: nat)
    requires n > 0 && IsEpochSet(n, all)
    ensures Later(n, all, m) - {KeyAt(n, m)} == Later(n, all, m + 1)
    ensures KeyAt(n, m) in all ==> KeyAt(n, m) in Later(n, all, m)
    ensures forall k :: k in Later(n, all, m) && k != KeyAt(n, m) ==> Before(KeyAt(n, m), k)
  {
    hide KeyAt;
    AdvanceIsNext(n, m);
    var a, b := Later(n, all, m) - {KeyAt(n, m)}, Later(n, all, m + 1);
    forall k | k in all
      ensures k in a <==> k in b
    {
      BetweenKeys(n, m, k);
    }
  }

  // No key of an existing shard lies between two consecutive ones.
  lemma BetweenKeys(n: nat, m: nat, k: Key)
    requires n > 0 && k.1 < n
    ensures Before(k, KeyAt(n, m + 1)) <==> Before(k, KeyAt(n, m)) || k == KeyAt(n, m)
  {
    AdvanceIsNext(n, m);
  }

  lemma DrainingStep(n: nat, all: map<Key, Epoch>, s: State)
    requires n > 0 && IsEpochSet(n, all) && Draining(n, all, s)
    ensures var next := KeyAt(n, |s.executed|);
      if next in s.pending then
        First(s.pending) == next && Draining(n, all, State(s.executed + [s.pending[next]], s.pending - {next}))
      else Settled(n, all, s)
  {
    hide KeyAt, Later, Before;
    LaterStep(n, all, |s.executed|);
    LaterIsPart(n, all, |s.executed|);
    FirstIs(s.pending, KeyAt(n, |s.executed|));
  }

  lemma FirstIs(pending: map<Key, Epoch>, k: Key)
    requires k in pending ==> forall q :: q in pending && q != k ==> Before(k, q)
    ensures k in pending ==> First(pending) == k
  {
  }

  lemma {:induction false} DrainSettles(n: nat, all: map<Key, Epoch>, s: State)
    requires n > 0 && IsEpochSet(n, all) && Draining(n, all, s)
    ensures Settled(n, all, Drain(n, s))
    decreases |s.pending|
  {
    hide KeyAt, Draining, Settled, IsEpochSet;
    var next := KeyAt(n, |s.executed|);
    DrainingStep(n, all, s);
    if next in s.pending {
      DrainSettles(n, all, State(s.executed + [s.pending[next]], s.pending - {next}));
    } else {
      assert s.pending != map[] ==> First(s.pending) in s.pending;
    }
  }

  lemma LaterIsPart(n: nat, all: map<Key, Epoch>, m: nat)
    requires n > 0
    ensures forall k :: k in Later(n, all, m) ==> k in all && Later(n, all, m)[k] == all[k]
  {
  }

  // A new epoch of the set.
  lemma OnEpochSettles(n: nat, all: map<Key, Epoch>, s: State, e: Epoch)
    requires n > 0 && IsEpochSet(n, all) && Settled(n, all, s)
    requires KeyOf(e) !in all && e.seqNo >= 1 && e.shardId < n
    ensures Settled(n, all[KeyOf(e) := e], OnEpoch(n, s, e))
  {
    hide KeyAt;
    var k, m := KeyOf(e), |s.executed|;
    var all' := all[k := e];
    if k == KeyAt(n, m) {
      LaterStep(n, all', m);
      assert Later(n, all', m) - {k} == Later(n, all, m);
      DrainSettles(n, all', s.(executed := s.executed + [e]));
    } else {
      NotPast(n, all, m, k);
      assert Later(n, all', m) == Later(n, all, m)[k := e];
      DrainSettles(n, all', s.(pending := s.pending[k := e]));
    }
  }

  // Everything before the next key has been delivered.
  lemma NotPast(n: nat, all: map<Key, Epoch>, m: nat, k: Key)
    requires n > 0 && k.0 >= 1 && k.1 < n && k !in all
    requires forall i :: 0 <= i < m ==> KeyAt(n, i) in all
    ensures !Before(k, KeyAt(n, m))
  {
    hide KeyAt;
    var i := KeyHasIndex(n, k);
    if i > m {
      KeysIncrease(n, m, i);
    }
  }

  // The epochs delivered, by key.
  function AllOf(es: seq<Epoch>): map<Key, Epoch> {
    if es == [] then map[] else AllOf(es[..|es| - 1])[KeyOf(es[|es| - 1]) := es[|es| - 1]]
  }

  ghost predicate EachOnce(n: nat, es: seq<Epoch>) {
    && (forall i :: 0 <= i < |es| ==> es[i].seqNo >= 1 && es[i].shardId < n)
    && (forall i, j :: 0 <= i < j < |es| ==> KeyOf(es[i]) != KeyOf(es[j]))
  }

  lemma {:induction false} AllOfKeys(n: nat, es: seq<Epoch>)
    requires EachOnce(n, es)
    ensures IsEpochSet(n, AllOf(es))
    ensures forall k :: k in AllOf(es) ==> AllOf(es)[k] in es
    ensures forall e :: e in es ==> KeyOf(e) in AllOf(es) && AllOf(es)[KeyOf(e)] == e
  {
    if es != [] {
      var front, last := es[..|es| - 1], es[|es| - 1];
      AllOfKeys(n, front);
      assert es == front + [last];
      forall e | e in es
        ensures KeyOf(e) in AllOf(es) && AllOf(es)[KeyOf(e)] == e
      {
        if e != last {
          var i :| 0 <= i < |es| && es[i] == e;
        }
      }
    }
  }

  // Each epoch delivered once, in any order: the scheduler has executed exactly the
  // longest gap-free run and keeps exactly the rest.
  lemma {:induction false} DeliverSettles(n: nat, es: seq<Epoch>)
    requires n > 0 && EachOnce(n, es)
    ensures Settled(n, AllOf(es), Deliver(n, es))
  {
    hide OnEpoch, KeyAt, Settled;
    if es == [] {
      NothingSettled(n);
    } else {
      var front := es[..|es| - 1];
      DeliverSettles(n, front);
      AllOfKeys(n, front);
      NewKey(n, es);
      OnEpochSettles(n, AllOf(front), Deliver(n, front), es[|es| - 1]);
    }
  }

  lemma NewKey(n: nat, es: seq<Epoch>)
    requires es != [] && EachOnce(n, es)
    ensures KeyOf(es[|es| - 1]) !in AllOf(es[..|es| - 1])
  {
    AllOfKeys(n, es[..|es| - 1]);
  }

  lemma NothingSettled(n: nat)
    requires n > 0
    ensures Settled(n, map[], State([], map[]))
  {
  }

  // The order of arrival does not matter.
  lemma OrderDoesNotMatter(n: nat, a: seq<Epoch>, b: seq<Epoch>)
    requires n > 0 && EachOnce(n, a) && EachOnce(n, b) && multiset(a) == multiset(b)
    ensures Deliver(n, a) == Deliver(n, b)
  {
    hide Deliver, Settled;
    DeliverSettles(n, a);
    DeliverSettles(n, b);
    AllOfKeys(n, a);
    AllOfKeys(n, b);
    SameEpochs(n, a, b);
    SettledIsUnique(n, AllOf(a), Deliver(n, a), Deliver(n, b));
  }

  lemma SameEpochs(n: nat, a: seq<Epoch>, b: seq<Epoch>)
    requires EachOnce(n, a) && EachOnce(n, b) && multiset(a) == multiset(b)
    ensures AllOf(a) == AllOf(b)
  {
    SameMembers(a, b);
    SameMembers(b, a);
    forall k | k in AllOf(a)
      ensures k in AllOf(b) && AllOf(b)[k] == AllOf(a)[k]
    {
      InOther(n, a, b, k);
    }
    forall k | k in AllOf(b)
      ensures k in AllOf(a)
    {
      InOther(n, b, a, k);
    }
  }

  lemma InOther(n: nat, a: seq<Epoch>, b: seq<Epoch>, k: Key)
    requires EachOnce(n, a) && EachOnce(n, b) && k in AllOf(a) && forall e :: e in a ==> e in b
    ensures k in AllOf(b) && AllOf(b)[k] == AllOf(a)[k]
  {
    hide AllOf, EachOnce;
    AllOfKeys(n, a);
    AllOfKeys(n, b);
    var e := AllOf(a)[k];
    assert e in b && KeyOf(e) == k;
  }

  lemma SameMembers(a: seq<Epoch>, b: seq<Epoch>)
    requires multiset(a) == multiset(b)
    ensures forall e :: e in a ==> e in b
  {
    forall e | e in a
      ensures e in b
    {
      assert e in multiset(a);
    }
  }

  // ---------- repeated epochs ----------

  // An epoch that arrives after its turn stays in front of the map for good: from
  // then on nothing that had to wait is ever executed.
  lemma StaleBlocks(n: nat, s: State, e: Epoch)
    requires n > 0 && Stale(n, s)
    ensures Stale(n, OnEpoch(n, s, e))
    ensures OnEpoch(n, s, e).executed == if KeyOf(e) == KeyAt(n, |s.executed|) then s.executed + [e] else s.executed
  {
    hide KeyAt;
    var m := |s.executed|;
    var k :| k in s.pending && Before(k, KeyAt(n, m));
    KeysIncrease(n, m, m + 1);
    if KeyOf(e) == KeyAt(n, m) {
      StaleStops(n, s.(executed := s.executed + [e]), k);
    } else {
      StaleStops(n, s.(pending := s.pending[KeyOf(e) := e]), k);
    }
  }

  lemma StaleStops(n: nat, s: State, k: Key)
    requires n > 0 && k in s.pending && Before(k, KeyAt(n, |s.executed|))
    ensures Drain(n, s) == s
  {
  }

  lemma LateIsStale(n: nat, s: State, e: Epoch)
    requires n > 0 && Before(KeyOf(e), KeyAt(n, |s.executed|))
    ensures Stale(n, OnEpoch(n, s, e)) && OnEpoch(n, s, e).executed == s.executed
  {
    var s' := s.(pending := s.pending[KeyOf(e) := e]);
    StaleStops(n, s', KeyOf(e));
  }

  // Everything pending comes after the next key: nothing is stale, nothing is due.
  ghost predicate Fresh(n: nat, s: State)
    requires n > 0
  {
    forall k :: k in s.pending ==> k.1 < n && Before(KeyAt(n, |s.executed|), k)
  }

  lemma {:induction false} DrainIsFresh(n: nat, s: State)
    requires n > 0 && forall k :: k in s.pending ==> k.1 < n && !Before(k, KeyAt(n, |s.executed|))
    ensures Fresh(n, Drain(n, s))
    decreases |s.pending|
  {
    hide KeyAt;
    var next := KeyAt(n, |s.executed|);
    if next in s.pending {
      var s' := State(s.executed + [s.pending[next]], s.pending - {next});
      assert First(s.pending) == next;
      forall k | k in s'.pending
        ensures !Before(k, KeyAt(n, |s'.executed|))
      {
        BetweenKeys(n, |s.executed|, k);
      }
      DrainIsFresh(n, s');
    } else {
      assert s.pending != map[] ==> First(s.pending) in s.pending;
    }
  }

  lemma OnEpochFresh(n: nat, s: State, e: Epoch)
    requires n > 0 && Fresh(n, s) && e.shardId < n
    ensures Fresh(n, OnEpoch(n, s, e)) <==> !Before(KeyOf(e), KeyAt(n, |s.executed|))
  {
    hide KeyAt, Drain;
    var m := |s.executed|;
    if Before(KeyOf(e), KeyAt(n, m)) {
      LateIsStale(n, s, e);
    } else if KeyOf(e) == KeyAt(n, m) {
      forall k | k in s.pending
        ensures !Before(k, KeyAt(n, m + 1))
      {
        BetweenKeys(n, m, k);
      }
      DrainIsFresh(n, s.(executed := s.executed + [e]));
    } else {
      DrainIsFresh(n, s.(pending := s.pending[KeyOf(e) := e]));
    }
  }

  // The i-th epoch arrives after its turn.
  ghost predicate IsLate(n: nat, es: seq<Epoch>, i: nat)
    requires n > 0 && i < |es|
  {
    Before(KeyOf(es[i]), KeyAt(n, |Deliver(n, es[..i]).executed|))
  }

  // The scheduler has nothing due left in its map exactly as long as no epoch has
  // arrived after its turn, be it repeated or not.
  lemma {:induction false} FreshIffNoneLate(n: nat, es: seq<Epoch>)
    requires n > 0 && forall i :: 0 <= i < |es| ==> es[i].shardId < n
    ensures Fresh(n, Deliver(n, es)) <==> forall i :: 0 <= i < |es| ==> !IsLate(n, es, i)
    ensures Fresh(n, Deliver(n, es)) || Stale(n, Deliver(n, es))
  {
    hide OnEpoch, KeyAt;
    if es != [] {
      var k := |es| - 1;
      var front := es[..k];
      FreshIffNoneLate(n, front);
      forall i | 0 <= i < k
        ensures IsLate(n, front, i) <==> IsLate(n, es, i)
      {
        assert front[..i] == es[..i];
      }
      var s := Deliver(n, front);
      if Fresh(n, s) {
        OnEpochFresh(n, s, es[k]);
        if IsLate(n, es, k) {
          LateIsStale(n, s, es[k]);
        }
      } else {
        StaleBlocks(n, s, es[k]);
      }
    }
  }

  // One shard, epoch 1 delivered twice, then 3 and 2: epoch 3 waits for ever, though
  // nothing is missing.
  lemma RepeatedEpochBlocks(one: Epoch, two: Epoch, three: Epoch)
    requires KeyOf(one) == (1, 0) && KeyOf(two) == (2, 0) && KeyOf(three) == (3, 0)
    ensures Deliver(1, [one, one, three, two]).executed == [one, two]
    ensures Deliver(1, [one, three, two]).executed == [one, two, three]
  {
    hide Drain, Deliver, AllOf, Settled;
    assert KeyAt(1, 0) == (1, 0) && KeyAt(1, 1) == (2, 0) && KeyAt(1, 2) == (3, 0);
    assert [one] + [one] == [one, one] && [one, one] + [three] == [one, one, three];
    assert [one, one, three] + [two] == [one, one, three, two];
    DeliverStep(1, [one], one);
    DeliverStep(1, [one, one], three);
    DeliverStep(1, [one, one, three], two);
    FirstEpoch(one);
    LateIsStale(1, Deliver(1, [one]), one);
    StaleBlocks(1, Deliver(1, [one, one]), three);
    StaleBlocks(1, Deliver(1, [one, one, three]), two);
    DeliverSettles(1, [one, three, two]);
    ThreeEpochs(one, two, three);
    OneTwoThree(Deliver(1, [one, three, two]), one, two, three);
  }

  lemma DeliverStep(n: nat, es: seq<Epoch>, e: Epoch)
    requires n > 0
    ensures Deliver(n, es + [e]) == OnEpoch(n, Deliver(n, es), e)
  {
  }

  lemma FirstEpoch(one: Epoch)
    requires KeyOf(one) == (1, 0)
    ensures Deliver(1, [one]).executed == [one]
  {
  }

  lemma ThreeEpochs(one: Epoch, two: Epoch, three: Epoch)
    ensures AllOf([one, three, two]) == map[KeyOf(one) := one, KeyOf(three) := three, KeyOf(two) := two]
  {
    assert [one, three, two][..2] == [one, three] && [one, three][..1] == [one] && [one][..0] == [];
    assert AllOf([one]) == map[KeyOf(one) := one];
    assert AllOf([one, three]) == map[KeyOf(one) := one, KeyOf(three) := three];
  }

  lemma OneTwoThree(s: State, one: Epoch, two: Epoch, three: Epoch)
    requires KeyOf(one) == (1, 0) && KeyOf(two) == (2, 0) && KeyOf(three) == (3, 0)
    requires Settled(1, map[(1, 0) := one, (3, 0) := three, (2, 0) := two], s)
    ensures s.executed == [one, two, three]
  {
    assert KeyAt(1, 0) == (1, 0) && KeyAt(1, 1) == (2, 0) && KeyAt(1, 2) == (3, 0) && KeyAt(1, 3) == (4, 0);
    assert |s.executed| == 3;
  }

  // ---------- the scheduler ----------

  class CalvinScheduler {
    const shardNum: nat
    var nextEpochKey: Key
    var pendingEpochEntries: map<Key, Epoch>
    var executed: seq<Epoch>  // the epochs given to the state machine, in order

    ghost function View(): State
      reads this
    {
      State(executed, pendingEpochEntries)
    }

    ghost predicate Valid()
      reads this
    {
      shardNum > 0 && nextEpochKey == KeyAt(shardNum, |executed|)
    }

    constructor (shardNum: nat)
      requires shardNum > 0
      ensures Valid() && View() == Deliver(shardNum, []) && this.shardNum == shardNum
    {
      this.shardNum := shardNum;
      nextEpochKey, pendingEpochEntries, executed := (1, 0), map[], [];
      new;
      DivisionIsUnique(0, shardNum, 0, 0);
    }

    method ProcessEpoch(req: Epoch)
      requires Valid()
      modifies this`executed, this`nextEpochKey
      ensures Valid() && executed == old(executed) + [req]
    {
      hide KeyAt;
      AdvanceIsNext(shardNum, |executed|);
      executed := executed + [req];
      if nextEpochKey.1 == shardNum - 1 {
        nextEpochKey := (nextEpochKey.0 + 1, 0);
      } else {
        nextEpochKey := (nextEpochKey.0, nextEpochKey.1 + 1);
      }
    }

    // begin() of the map.
    method Begin() returns (k: Key)
      requires pendingEpochEntries != map[]
      ensures k == First(pendingEpochEntries) && k in pendingEpochEntries
    {
      LeastPairExists(pendingEpochEntries.Keys);
      k :| k in pendingEpochEntries && IsLeastPair(pendingEpochEntries.Keys, k);
      FirstUnique(pendingEpochEntries, k);
    }

    method ProcessPendingEpochEntries()
      requires Valid()
      modifies this
      ensures Valid() && View() == Drain(shardNum, old(View()))
    {
      hide KeyAt;
      while pendingEpochEntries != map[]
        invariant Valid() && Drain(shardNum, View()) == Drain(shardNum, old(View()))
        decreases |pendingEpochEntries|
      {
        var k := Begin();
        if k != nextEpochKey {
          return;
        }
        ProcessEpoch(pendingEpochEntries[k]);
        pendingEpochEntries := pendingEpochEntries - {k};
      }
    }

    method OnEpochRequest(req: Epoch)
      requires Valid()
      modifies this
      ensures Valid() && View() == OnEpoch(shardNum, old(View()), req)
    {
      hide KeyAt, Drain;
      if nextEpochKey.0 == req.seqNo && nextEpochKey.1 == req.shardId {
        ProcessEpoch(req);
      } else {
        pendingEpochEntries := pendingEpochEntries[(req.seqNo, req.shardId) := req];
      }
      ProcessPendingEpochEntries();
    }
  }

  lemma FirstUnique(pending: map<Key, Epoch>, k: Key)
    requires pending != map[] && IsLeastPair(pending.Keys, k)
    ensures k == First(pending)
  {
  }
}
