/**
 NezhaService/NezhaReplica.cc: deadline hold-and-release.  The leader holds
 requests in a buffer ordered by (deadline, txnKey), raises a late request's
 deadline above the last one released for any of its keys, and releases what its
 clock has passed.  Clock readings and arrivals are arbitrary inputs; deadlines are
 64-bit words.
 */
module NezhaHoldRelease {
  import opened Collections
  import opened Words

  const MAX_WORD: nat := 0xFFFF_FFFF_FFFF_FFFF

  type Key = nat
  type Rank = Pair  // deadline, then txnKey

  datatype LogEntry = LogEntry(deadline: nat, txnKey: nat, keys: set<Key>)

  function RankOf(e: LogEntry): Rank {
    (e.deadline, e.txnKey)
  }

  // lastReleasedTxnDeadlines_[key] + 1, a 64-bit addition.
  function Successor(d: nat): nat {
    Word(d + 1)
  }

  // d is the deadline given to a request: its own, or the successor of the last
  // deadline released for one of its keys, whichever is largest.
  ghost predicate IsBumped(own: nat, last: map<Key, nat>, keys: set<Key>, d: nat) {
    && own <= d
    && (forall k :: k in keys && k in last ==> Successor(last[k]) <= d)
    && (d == own || exists k :: k in keys && k in last && d == Successor(last[k]))
  }

  // Entries that share a key are released in increasing rank.
  ghost predicate Ordered(released: seq<LogEntry>) {
    forall i, j, k :: 0 <= i < j < |released| && k in released[i].keys && k in released[j].keys ==>
                        Before(RankOf(released[i]), RankOf(released[j]))
  }

  // Entries that share a key are released with increasing deadlines.
  ghost predicate DeadlinesIncrease(released: seq<LogEntry>) {
    forall i, j, k :: 0 <= i < j < |released| && k in released[i].keys && k in released[j].keys ==>
                        released[i].deadline < released[j].deadline
  }

  // No deadline released for a key is above last.
  ghost predicate Covered(released: seq<LogEntry>, last: map<Key, nat>) {
    forall i, k :: 0 <= i < |released| && k in released[i].keys ==> k in last && released[i].deadline <= last[k]
  }

  ghost predicate ReleasedAt(released: seq<LogEntry>, k: Key, d: nat) {
    exists i :: 0 <= i < |released| && k in released[i].keys && released[i].deadline == d
  }

  // last is the largest deadline released for a key, or zero.
  ghost predicate Attained(released: seq<LogEntry>, last: map<Key, nat>) {
    forall k :: k in last ==> last[k] == 0 || ReleasedAt(released, k, last[k])
  }

  ghost predicate AreWords(last: map<Key, nat>) {
    forall k :: k in last ==> last[k] <= MAX_WORD
  }

  // What is held comes after everything released for its keys.
  ghost predicate HeldAfter(hold: map<Rank, LogEntry>, released: seq<LogEntry>) {
    forall r, i, k :: r in hold && 0 <= i < |released| && k in hold[r].keys && k in released[i].keys ==>
                        Before(RankOf(released[i]), r)
  }

  // The bump works exactly as long as no key's last deadline is the largest word:
  // nothing is above that one, and its successor wraps to zero.
  lemma BumpIsAbove(own: nat, last: map<Key, nat>, keys: set<Key>, d: nat)
    requires IsBumped(own, last, keys, d) && d <= MAX_WORD
    requires forall k :: k in keys ==> k in last && last[k] <= MAX_WORD
    ensures (forall k :: k in keys ==> last[k] < d) <==> (forall k :: k in keys ==> last[k] != MAX_WORD)
  {
  }

  // A request whose deadline has become d comes after everything released for its
  // keys that was released at the largest deadline.
  ghost predicate Fits(released: seq<LogEntry>, last: map<Key, nat>, d: nat, txnKey: nat, keys: set<Key>)
    requires keys <= last.Keys
  {
    forall k :: k in keys && last[k] == MAX_WORD ==>
                  d == MAX_WORD && forall i :: 0 <= i < |released| && k in released[i].keys && released[i].deadline == MAX_WORD ==> released[i].txnKey < txnKey
  }

  // The entry comes after everything released for its keys.
  ghost predicate IsAfter(released: seq<LogEntry>, e: LogEntry) {
    forall i, k :: 0 <= i < |released| && k in e.keys && k in released[i].keys ==> Before(RankOf(released[i]), RankOf(e))
  }

  lemma AfterIsOrdered(released: seq<LogEntry>, e: LogEntry)
    requires Ordered(released)
    ensures Ordered(released + [e]) <==> IsAfter(released, e)
  {
    var more := released + [e];
    if Ordered(more) {
      forall i, k | 0 <= i < |released| && k in e.keys && k in released[i].keys
        ensures Before(RankOf(released[i]), RankOf(e))
      {
        assert more[i] == released[i] && more[|released|] == e;
      }
    }
  }

  // The raised deadline puts a request after everything released for its keys exactly
  // when it fits: always, if none of its keys has been released at the largest word.
  lemma BumpOrders(released: seq<LogEntry>, last: map<Key, nat>, own: nat, e: LogEntry)
    requires Covered(released, last) && Attained(released, last) && AreWords(last)
    requires IsBumped(own, last, e.keys, e.deadline) && e.deadline <= MAX_WORD && e.keys <= last.Keys
    ensures IsAfter(released, e) <==> Fits(released, last, e.deadline, e.txnKey, e.keys)
  {
    if IsAfter(released, e) {
      forall k | k in e.keys && last[k] == MAX_WORD
        ensures e.deadline == MAX_WORD
      {
        assert ReleasedAt(released, k, MAX_WORD);
        var i :| 0 <= i < |released| && k in released[i].keys && released[i].deadline == MAX_WORD;
        assert Before(RankOf(released[i]), RankOf(e));
      }
    }
    if Fits(released, last, e.deadline, e.txnKey, e.keys) {
      forall i, k | 0 <= i < |released| && k in e.keys && k in released[i].keys
        ensures Before(RankOf(released[i]), RankOf(e))
      {
        assert released[i].deadline <= last[k];
        assert last[k] < MAX_WORD ==> Successor(last[k]) == last[k] + 1;
      }
    }
  }

  // After a release at the largest deadline the successor wraps: a request for the
  // key whose deadline is below it spoils the order of what is released.
  lemma WrapBreaksOrder(released: seq<LogEntry>, last: map<Key, nat>, own: nat, e: LogEntry, k: Key)
    requires Ordered(released) && Covered(released, last) && Attained(released, last) && AreWords(last)
    requires IsBumped(own, last, e.keys, e.deadline) && e.deadline < MAX_WORD && e.keys <= last.Keys
    requires k in e.keys && last[k] == MAX_WORD
    ensures !Ordered(released + [e])
  {
    BumpOrders(released, last, own, e);
    AfterIsOrdered(released, e);
  }

  // Once everything held has been released, the order is kept exactly if what was
  // held came after what had been released for its keys.
  lemma AllReleased(hold: map<Rank, LogEntry>, released: seq<LogEntry>, batch: seq<LogEntry>)
    requires forall r :: r in hold ==> RankOf(hold[r]) == r
    requires forall e :: e in batch <==> RankOf(e) in hold && e == hold[RankOf(e)]
    requires forall i, j :: 0 <= i < j < |batch| ==> Before(RankOf(batch[i]), RankOf(batch[j]))
    ensures Ordered(released + batch) <==> Ordered(released) && HeldAfter(hold, released)
  {
    var more := released + batch;
    if Ordered(more) {
      assert forall i :: 0 <= i < |released| ==> more[i] == released[i];
      forall r, i, k | r in hold && 0 <= i < |released| && k in hold[r].keys && k in released[i].keys
        ensures Before(RankOf(released[i]), r)
      {
        assert hold[r] in batch;
        var j :| 0 <= j < |batch| && batch[j] == hold[r];
        assert more[|released| + j] == hold[r];
      }
    }
    if Ordered(released) && HeldAfter(hold, released) {
      forall i, j, k | 0 <= i < j < |more| && k in more[i].keys && k in more[j].keys
        ensures Before(RankOf(more[i]), RankOf(more[j]))
      {
        assert j >= |released| ==> more[j] == batch[j - |released|] && more[j] in batch;
      }
    }
  }

  lemma HeldMore(hold: map<Rank, LogEntry>, released: seq<LogEntry>, e: LogEntry)
    requires HeldAfter(hold, released)
    ensures HeldAfter(hold[RankOf(e) := e], released) <==> IsAfter(released, e)
  {
    var more := hold[RankOf(e) := e];
    if HeldAfter(more, released) {
      assert more[RankOf(e)] == e;
    }
  }

  // batch is what has left the buffer `all`, in rank order; hold is the rest.
  ghost predicate Released(all: map<Rank, LogEntry>, hold: map<Rank, LogEntry>, batch: seq<LogEntry>, now: nat) {
    && hold.Keys <= all.Keys && (forall r :: r in hold ==> hold[r] == all[r])
    && (forall r :: r in all && r !in hold ==> r.0 <= now)
    && (forall e :: e in batch <==> RankOf(e) in all && RankOf(e) !in hold && e == all[RankOf(e)])
    && (forall i, j :: 0 <= i < j < |batch| ==> Before(RankOf(batch[i]), RankOf(batch[j])))
    && (forall i, r :: 0 <= i < |batch| && r in hold ==> Before(RankOf(batch[i]), r))
  }

  ghost predicate NoneDue(hold: map<Rank, LogEntry>, now: nat) {
    forall r :: r in hold ==> now < r.0
  }

  lemma ReleasedNone(all: map<Rank, LogEntry>, now: nat)
    ensures Released(all, all, [], now)
  {
  }

  lemma NothingDue(hold: map<Rank, LogEntry>, r: Rank, now: nat)
    requires IsLeastPair(hold.Keys, r) && now < r.0
    ensures NoneDue(hold, now)
  {
  }

  lemma ReleasedMore(all: map<Rank, LogEntry>, hold: map<Rank, LogEntry>, batch: seq<LogEntry>, now: nat, r: Rank)
    requires Released(all, hold, batch, now) && IsLeastPair(hold.Keys, r) && r.0 <= now && RankOf(hold[r]) == r
    ensures Released(all, hold - {r}, batch + [hold[r]], now)
  {
  }

  lemma ReleasedDue(all: map<Rank, LogEntry>, hold: map<Rank, LogEntry>, batch: seq<LogEntry>, now: nat)
    requires Released(all, hold, batch, now) && NoneDue(hold, now)
    requires forall r :: r in all ==> RankOf(all[r]) == r
    ensures hold == map r | r in all && r.0 > now :: all[r]
    ensures forall e :: e in batch <==> RankOf(e) in all && e == all[RankOf(e)] && e.deadline <= now
    ensures forall i, j :: 0 <= i < j < |batch| ==> Before(RankOf(batch[i]), RankOf(batch[j]))
  {
  }

  lemma AttainedMore(released: seq<LogEntry>, last: map<Key, nat>, e: LogEntry, last': map<Key, nat>)
    requires Attained(released, last) && last'.Keys == last.Keys
    requires forall k :: k in last ==> last'[k] == if k in e.keys then Max(last[k], e.deadline) else last[k]
    ensures Attained(released + [e], last')
  {
    var more := released + [e];
    forall k | k in last'
      ensures last'[k] == 0 || ReleasedAt(more, k, last'[k])
    {
      if last'[k] != last[k] {
        assert more[|released|] == e;
      } else if last[k] != 0 {
        var i :| 0 <= i < |released| && k in released[i].keys && released[i].deadline == last[k];
        assert more[i] == released[i];
      }
    }
  }

  // What is released at once from a buffer with one entry.
  lemma OneReleased(batch: seq<LogEntry>, e: LogEntry)
    requires forall x :: x in batch <==> x == e
    requires forall i, j :: 0 <= i < j < |batch| ==> Before(RankOf(batch[i]), RankOf(batch[j]))
    ensures batch == [e]
  {
    assert e in batch;
    assert batch[0] in batch;
    assert |batch| > 1 ==> batch[1] in batch && Before(RankOf(batch[0]), RankOf(batch[1]));
  }

  class HoldBuffer {
    var holdBuffer: map<Rank, LogEntry>
    var lastReleasedTxnDeadlines: map<Key, nat>
    var toExecQu: seq<LogEntry>  // everything ever enqueued for execution

    ghost predicate InOrder()
      reads this
    {
      Ordered(toExecQu) && Covered(toExecQu, lastReleasedTxnDeadlines)
    }

    // What holds whatever the clock reads and whatever arrives.
    ghost predicate Consistent()
      reads this
    {
      && (forall r: Rank :: r in holdBuffer ==> RankOf(holdBuffer[r]) == r && r.0 <= MAX_WORD && holdBuffer[r].keys <= lastReleasedTxnDeadlines.Keys)
      && AreWords(lastReleasedTxnDeadlines)
      && Covered(toExecQu, lastReleasedTxnDeadlines) && Attained(toExecQu, lastReleasedTxnDeadlines)
    }

    ghost predicate Valid()
      reads this
    {
      Consistent() && Ordered(toExecQu) && HeldAfter(holdBuffer, toExecQu)
    }

    constructor (keys: set<Key>)
      ensures Valid() && holdBuffer == map[] && toExecQu == [] && lastReleasedTxnDeadlines.Keys == keys
    {
      holdBuffer, lastReleasedTxnDeadlines, toExecQu := map[], map k | k in keys :: 0, [];
    }

    // The loop over the keys of an arriving request.
    method NewDeadline(own: nat, keys: set<Key>) returns (newDdl: nat)
      requires keys <= lastReleasedTxnDeadlines.Keys
      ensures IsBumped(own, lastReleasedTxnDeadlines, keys, newDdl)
    {
      newDdl := own;
      var todo := keys;
      while todo != {}
        invariant todo <= keys && IsBumped(own, lastReleasedTxnDeadlines, keys - todo, newDdl)
        decreases todo
      {
        var key: Key :| key in todo;
        newDdl := Max(newDdl, Successor(lastReleasedTxnDeadlines[key]));
        todo := todo - {key};
      }
      assert keys - todo == keys;
    }

    // A request enters the leader's buffer.  The order is kept exactly when it fits,
    // in particular as long as no key of it was released at the largest deadline.
    method Hold(own: nat, txnKey: nat, keys: set<Key>) returns (newDdl: nat)
      requires Consistent() && own <= MAX_WORD && keys <= lastReleasedTxnDeadlines.Keys
      modifies this`holdBuffer
      ensures Consistent() && newDdl <= MAX_WORD && IsBumped(own, lastReleasedTxnDeadlines, keys, newDdl)
      ensures holdBuffer == old(holdBuffer)[(newDdl, txnKey) := LogEntry(newDdl, txnKey, keys)]
      ensures old(Valid()) ==> (Valid() <==> Fits(toExecQu, lastReleasedTxnDeadlines, newDdl, txnKey, keys))
      ensures old(Valid()) && (forall k :: k in keys ==> lastReleasedTxnDeadlines[k] < MAX_WORD) ==>
                Valid() && forall k :: k in keys ==> lastReleasedTxnDeadlines[k] < newDdl
    {
      hide Ordered, Covered, Attained;
      newDdl := NewDeadline(own, keys);
      ghost var e := LogEntry(newDdl, txnKey, keys);
      BumpOrders(toExecQu, lastReleasedTxnDeadlines, own, e);
      BumpIsAbove(own, lastReleasedTxnDeadlines, keys, newDdl);
      if HeldAfter(holdBuffer, toExecQu) {
        HeldMore(holdBuffer, toExecQu, e);
      }
      holdBuffer := holdBuffer[(newDdl, txnKey) := LogEntry(newDdl, txnKey, keys)];
    }

    // begin() of the buffer.
    method Begin() returns (r: Rank)
      requires holdBuffer != map[]
      ensures IsLeastPair(holdBuffer.Keys, r)
    {
      LeastPairExists(holdBuffer.Keys);
      r :| r in holdBuffer && IsLeastPair(holdBuffer.Keys, r);
    }

    // The loop that raises the last released deadlines of an entry's keys.
    method RaiseLast(keys: set<Key>, ddl: nat)
      requires keys <= lastReleasedTxnDeadlines.Keys
      modifies this`lastReleasedTxnDeadlines
      ensures lastReleasedTxnDeadlines.Keys == old(lastReleasedTxnDeadlines.Keys)
      ensures forall k :: k in lastReleasedTxnDeadlines ==>
                lastReleasedTxnDeadlines[k] == if k in keys then Max(old(lastReleasedTxnDeadlines[k]), ddl) else old(lastReleasedTxnDeadlines[k])
    {
      var todo := keys;
      while todo != {}
        invariant todo <= keys && lastReleasedTxnDeadlines.Keys == old(lastReleasedTxnDeadlines.Keys)
        invariant forall k :: k in lastReleasedTxnDeadlines ==>
                    lastReleasedTxnDeadlines[k] == if k in keys - todo then Max(old(lastReleasedTxnDeadlines[k]), ddl) else old(lastReleasedTxnDeadlines[k])
        decreases todo
      {
        var key: Key :| key in todo;
        lastReleasedTxnDeadlines := lastReleasedTxnDeadlines[key := Max(lastReleasedTxnDeadlines[key], ddl)];
        todo := todo - {key};
      }
    }

    // Releases the first entry.
    method ReleaseEntry(r: Rank)
      requires Consistent() && IsLeastPair(holdBuffer.Keys, r)
      modifies this
      ensures Consistent() && lastReleasedTxnDeadlines.Keys == old(lastReleasedTxnDeadlines.Keys)
      ensures old(Valid()) ==> Valid()
      ensures toExecQu == old(toExecQu) + [old(holdBuffer)[r]] && holdBuffer == old(holdBuffer) - {r}
    {
      var entry := holdBuffer[r];
      toExecQu := toExecQu + [entry];
      RaiseLast(entry.keys, entry.deadline);
      AttainedMore(old(toExecQu), old(lastReleasedTxnDeadlines), entry, lastReleasedTxnDeadlines);
      holdBuffer := holdBuffer - {r};
    }

    // The releasing loop, at any clock reading: what it lets go is exactly what is
    // due, in rank order, and the order is kept.
    method Release(now: nat) returns (ghost batch: seq<LogEntry>)
      requires Consistent()
      modifies this
      ensures Consistent() && toExecQu == old(toExecQu) + batch && lastReleasedTxnDeadlines.Keys == old(lastReleasedTxnDeadlines.Keys)
      ensures old(Valid()) ==> Valid()
      ensures now >= MAX_WORD ==> (Ordered(toExecQu) <==> old(Ordered(toExecQu) && HeldAfter(holdBuffer, toExecQu)))
      ensures holdBuffer == map r | r in old(holdBuffer) && r.0 > Max(now, 1) :: old(holdBuffer)[r]
      ensures forall e :: e in batch <==> RankOf(e) in old(holdBuffer) && e == old(holdBuffer)[RankOf(e)] && e.deadline <= Max(now, 1)
      ensures forall i, j :: 0 <= i < j < |batch| ==> Before(RankOf(batch[i]), RankOf(batch[j]))
    {
      hide Ordered, Covered, Attained, AreWords, HeldAfter, Released, IsLeastPair;
      var nowTime := Max(now, 1);
      batch := [];
      ghost var all := holdBuffer;
      ReleasedNone(all, nowTime);
      while holdBuffer != map[]
        invariant Consistent() && (old(Valid()) ==> Valid())
        invariant toExecQu == old(toExecQu) + batch && lastReleasedTxnDeadlines.Keys == old(lastReleasedTxnDeadlines.Keys)
        invariant Released(all, holdBuffer, batch, nowTime)
        decreases |holdBuffer|
      {
        var r := Begin();
        if nowTime < r.0 {
          NothingDue(holdBuffer, r, nowTime);
          break;
        }
        ReleasedMore(all, holdBuffer, batch, nowTime, r);
        batch := batch + [holdBuffer[r]];
        ReleaseEntry(r);
      }
      assert NoneDue(holdBuffer, nowTime);
      ReleasedDue(all, holdBuffer, batch, nowTime);
      if now >= MAX_WORD {
        AllReleased(all, old(toExecQu), batch);
      }
    }

    // The follower's buffer: a request goes straight to execution if its deadline is
    // above all those released for its keys, and is dropped otherwise.
    method PassOrDrop(deadline: nat, txnKey: nat, keys: set<Key>) returns (enters: bool)
      requires InOrder() && keys <= lastReleasedTxnDeadlines.Keys
      modifies this`toExecQu, this`lastReleasedTxnDeadlines
      ensures InOrder() && lastReleasedTxnDeadlines.Keys == old(lastReleasedTxnDeadlines.Keys)
      ensures enters == forall k :: k in keys ==> old(lastReleasedTxnDeadlines[k]) < deadline
      ensures old(DeadlinesIncrease(toExecQu)) ==> DeadlinesIncrease(toExecQu)
      ensures toExecQu == if enters then old(toExecQu) + [LogEntry(deadline, txnKey, keys)] else old(toExecQu)
    {
      enters := true;
      var todo := keys;
      while todo != {}
        invariant todo <= keys && enters == forall k :: k in keys - todo ==> lastReleasedTxnDeadlines[k] < deadline
        decreases todo
      {
        var key: Key :| key in todo;
        if deadline <= lastReleasedTxnDeadlines[key] {
          enters := false;
          break;
        }
        todo := todo - {key};
      }
      if enters {
        toExecQu := toExecQu + [LogEntry(deadline, txnKey, keys)];
        RaiseLast(keys, deadline);
      }
    }
  }

  // Deadlines 2^64 - 1 and 7 for one key: the second request is released after the
  // first, below it.
  method WrapIsReachable() returns (buffer: HoldBuffer)
    ensures fresh(buffer) && buffer.toExecQu == [LogEntry(MAX_WORD, 1, {0}), LogEntry(7, 2, {0})]
    ensures !Ordered(buffer.toExecQu)
  {
    hide Ordered, Attained, Covered, AreWords, HeldAfter, Fits;
    buffer := new HoldBuffer({0});
    var d := buffer.Hold(MAX_WORD, 1, {0});
    var e := LogEntry(MAX_WORD, 1, {0});
    var first := buffer.Release(MAX_WORD);
    OneReleased(first, e);
    LargestReleased(buffer.toExecQu, buffer.lastReleasedTxnDeadlines, e, 0);
    d := buffer.Hold(7, 2, {0});
    assert d == 7;
    var second := buffer.Release(MAX_WORD);
    OneReleased(second, LogEntry(7, 2, {0}));
    OrderOfTwo(buffer.toExecQu);
  }

  lemma LargestReleased(released: seq<LogEntry>, last: map<Key, nat>, e: LogEntry, k: Key)
    requires Covered(released, last) && AreWords(last) && released == [e] && e.deadline == MAX_WORD && k in e.keys
    ensures k in last && last[k] == MAX_WORD
  {
    assert released[0] == e;
  }

  lemma OrderOfTwo(released: seq<LogEntry>)
    requires released == [LogEntry(MAX_WORD, 1, {0}), LogEntry(7, 2, {0})]
    ensures !Ordered(released)
  {
    assert 0 in released[0].keys && 0 in released[1].keys;
  }
}
