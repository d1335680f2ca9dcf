/**
 NezhaService/NezhaReplica.cc and Common.h: incremental XOR hashes per key.  The
 leader's entry carries the hash of everything released for a key; a follower
 combines what the leader has synced with the entries it still holds above the
 sync point.  The hash of a single entry (SHA-1 in the program) is an arbitrary
 function, and the synced item a follower reads is an arbitrary input.
 */
module NezhaHashes {
  import opened Collections

  type Key = nat

  datatype Hash = Hash(h1: bv32, h2: bv32, h3: bv32, h4: bv32, h5: bv32)

  const ZERO := Hash(0, 0, 0, 0, 0)

  function WordXor(a: bv32, b: bv32): bv32 {
    a ^ b
  }

  function Xor(a: Hash, b: Hash): Hash {
    Hash(WordXor(a.h1, b.h1), WordXor(a.h2, b.h2), WordXor(a.h3, b.h3), WordXor(a.h4, b.h4), WordXor(a.h5, b.h5))
  }

  lemma XorLaws(a: Hash, b: Hash, c: Hash)
    ensures Xor(Xor(a, b), c) == Xor(a, Xor(b, c))
    ensures Xor(a, b) == Xor(b, a)
    ensures Xor(a, a) == ZERO && Xor(a, ZERO) == a
  {
    hide WordXor;
    WordLaws(a.h1, b.h1, c.h1);
    WordLaws(a.h2, b.h2, c.h2);
    WordLaws(a.h3, b.h3, c.h3);
    WordLaws(a.h4, b.h4, c.h4);
    WordLaws(a.h5, b.h5, c.h5);
  }

  lemma WordLaws(a: bv32, b: bv32, c: bv32)
    ensures WordXor(WordXor(a, b), c) == WordXor(a, WordXor(b, c))
    ensures WordXor(a, b) == WordXor(b, a)
    ensures WordXor(a, a) == 0 && WordXor(a, 0) == a
  {
    hide WordXor;
    WordAssociates(a, b, c);
    WordCommutes(a, b);
    WordCancels(a);
    WordZero(a);
  }

  lemma WordAssociates(a: bv32, b: bv32, c: bv32)
    ensures WordXor(WordXor(a, b), c) == WordXor(a, WordXor(b, c))
  {
  }

  lemma WordCommutes(a: bv32, b: bv32)
    ensures WordXor(a, b) == WordXor(b, a)
  {
  }

  lemma WordCancels(a: bv32)
    ensures WordXor(a, a) == 0
  {
  }

  lemma WordZero(a: bv32)
    ensures WordXor(a, 0) == a
  {
  }

  // The hash of a sequence of entry hashes.
  function Fold(hs: seq<Hash>): Hash {
    if hs == [] then ZERO else Xor(Fold(hs[..|hs| - 1]), hs[|hs| - 1])
  }

  lemma {:induction false} FoldConcat(a: seq<Hash>, b: seq<Hash>)
    ensures Fold(a + b) == Xor(Fold(a), Fold(b))
  {
    hide Xor;
    if b == [] {
      assert a + b == a;
      XorLaws(Fold(a), ZERO, ZERO);
    } else {
      var k := |b| - 1;
      assert (a + b)[..|a + b| - 1] == a + b[..k];
      FoldConcat(a, b[..k]);
      XorLaws(Fold(a), Fold(b[..k]), b[k]);
    }
  }

  lemma FoldMiddle(a: seq<Hash>, x: Hash, c: seq<Hash>)
    ensures Fold(a + ([x] + c)) == Xor(Fold(a + c), x)
  {
    hide Xor, Fold;
    FoldConcat(a, c);
    FoldConcat(a, [x] + c);
    FoldConcat([x], c);
    FoldOne(x);
    XorLaws(Fold(a), Fold(c), x);
    XorLaws(x, Fold(c), ZERO);
  }

  lemma FoldWithout(b: seq<Hash>, i: nat)
    requires i < |b|
    ensures Fold(b) == Xor(Fold(b[..i] + b[i + 1..]), b[i])
  {
    hide Xor, Fold;
    assert b == b[..i] + ([b[i]] + b[i + 1..]);
    FoldMiddle(b[..i], b[i], b[i + 1..]);
  }

  lemma MultisetWithout<T>(b: seq<T>, i: nat)
    requires i < |b|
    ensures multiset(b[..i] + b[i + 1..]) == multiset(b) - multiset{b[i]}
  {
    assert b == b[..i] + [b[i]] + b[i + 1..];
  }

  // Order does not matter.
  lemma {:induction false} FoldPermutation(a: seq<Hash>, b: seq<Hash>)
    requires multiset(a) == multiset(b)
    ensures Fold(a) == Fold(b)
    decreases |a|
  {
    hide Xor;
    if a == [] {
      assert |multiset(b)| == 0;
    } else {
      var k := |a| - 1;
      assert a[k] in multiset(b);
      var i: nat :| i < |b| && b[i] == a[k];
      assert a[..k] + a[k + 1..] == a[..k];
      MultisetWithout(a, k);
      MultisetWithout(b, i);
      FoldWithout(b, i);
      FoldPermutation(a[..k], b[..i] + b[i + 1..]);
    }
  }

  lemma FoldOne(x: Hash)
    ensures Fold([x]) == x
  {
    hide Xor;
    XorLaws(ZERO, x, ZERO);
    XorLaws(x, ZERO, ZERO);
    assert Fold([x]) == Xor(Fold([]), x);
  }

  // ---------- queues ----------

  // An entry in the queue of one key: acc is its accumulated hash for that key.
  datatype QuEntry = QuEntry(deadline: nat, txnKey: nat, own: Hash, acc: Hash)
  type Queue = seq<QuEntry>

  function Owns(qu: Queue): (hs: seq<Hash>)
    ensures |hs| == |qu|
    ensures forall i :: 0 <= i < |qu| ==> hs[i] == qu[i].own
  {
    seq(|qu|, i requires 0 <= i < |qu| => qu[i].own)
  }

  // A log entry with its own hash, myHash_.
  datatype LogEntry = LogEntry(deadline: nat, txnKey: nat, own: Hash)

  // The entry that is pushed behind qu.
  function Behind(qu: Queue, e: LogEntry): QuEntry {
    QuEntry(e.deadline, e.txnKey, e.own, if qu == [] then e.own else Xor(e.own, qu[|qu| - 1].acc))
  }

  // Each accumulated hash extends the one before; the first may include entries
  // that have left the queue.
  ghost predicate Chained(qu: Queue) {
    forall i, j :: 0 <= i && j == i + 1 && j < |qu| ==> qu[j].acc == Xor(qu[j].own, qu[i].acc)
  }

  ghost predicate Increasing(qu: Queue) {
    forall i, j :: 0 <= i < j < |qu| ==> qu[i].deadline < qu[j].deadline
  }

  // From the boundary to the end: the last accumulated hash, without what precedes
  // the boundary.
  lemma {:induction false} ChainDifference(qu: Queue, k: nat)
    requires Chained(qu) && k < |qu|
    ensures Xor(Xor(qu[k].acc, qu[0].acc), qu[0].own) == Fold(Owns(qu)[..k + 1])
    decreases k
  {
    hide Xor;
    var hs := Owns(qu);
    if k == 0 {
      assert hs[..1] == [qu[0].own];
      FoldOne(qu[0].own);
      XorLaws(qu[0].acc, ZERO, ZERO);
      XorLaws(ZERO, qu[0].own, ZERO);
      XorLaws(qu[0].own, ZERO, ZERO);
    } else {
      ChainDifference(qu, k - 1);
      assert hs[..k + 1][..k] == hs[..k];
      var i, own, acc, first, a := k - 1, qu[k].own, qu[k - 1].acc, qu[0].own, qu[0].acc;
      assert qu[k].acc == Xor(own, acc);
      XorShuffle(own, acc, a, first);
    }
  }

  lemma XorShuffle(own: Hash, acc: Hash, a: Hash, first: Hash)
    ensures Xor(Xor(Xor(own, acc), a), first) == Xor(Xor(Xor(acc, a), first), own)
  {
    hide Xor;
    XorLaws(own, acc, a);
    XorLaws(own, Xor(acc, a), first);
    XorLaws(own, Xor(Xor(acc, a), first), ZERO);
  }

  // What is left when everything up to deadline d has been popped.
  function Above(qu: Queue, d: nat): Queue {
    if qu == [] || qu[0].deadline > d then qu else Above(qu[1..], d)
  }

  // In a queue ordered by deadline those are exactly the entries above d, and the
  // queue keeps its form.
  lemma {:induction false} AboveIsExact(qu: Queue, d: nat)
    requires Increasing(qu)
    ensures forall e :: e in Above(qu, d) <==> e in qu && e.deadline > d
    ensures |Above(qu, d)| <= |qu| && Above(qu, d) == qu[|qu| - |Above(qu, d)|..]
  {
    if qu != [] && qu[0].deadline <= d {
      AboveIsExact(qu[1..], d);
      assert qu == [qu[0]] + qu[1..];
    }
  }

  lemma SuffixShape(qu: Queue, n: nat)
    requires n <= |qu| && Chained(qu) && Increasing(qu)
    ensures Chained(qu[n..]) && Increasing(qu[n..])
  {
    hide Xor;
  }

  // The entry's deadline is above those queued before it: the hold buffer lets only
  // such entries through.
  ghost predicate IsNew(qu: Queue, e: LogEntry) {
    qu != [] ==> qu[|qu| - 1].deadline < e.deadline
  }

  lemma PushShape(qu: Queue, e: LogEntry)
    requires Chained(qu) && Increasing(qu) && IsNew(qu, e)
    ensures Chained(qu + [Behind(qu, e)]) && Increasing(qu + [Behind(qu, e)])
  {
    hide Xor;
  }

  lemma EmptyShape()
    ensures Chained([]) && Increasing([])
  {
  }

  function QueueOf(qus: map<Key, Queue>, k: Key): Queue {
    if k in qus then qus[k] else []
  }

  // ---------- the follower ----------

  datatype SyncedHashItem = SyncedHashItem(deadline: nat, acc: Hash)

  // The queue of a key after an entry has gone through it.
  function NewQueue(qu: Queue, e: LogEntry, item: SyncedHashItem): Queue {
    if e.deadline <= item.deadline then qu + [Behind(qu, e)]
    else Above(qu + [Behind(qu, e)], item.deadline)
  }

  // The hash for a key with a boundary: cut off what precedes the boundary, add the
  // boundary's own hash back, and add what is synced.
  function Refined(acc: Hash, boundary: QuEntry, item: SyncedHashItem): Hash {
    Xor(Xor(Xor(acc, boundary.acc), boundary.own), item.acc)
  }

  // It is the synced hash with the hashes of exactly the entries still queued.
  lemma RefinedIsSyncedAndQueued(qu: Queue, item: SyncedHashItem)
    requires Chained(qu) && qu != []
    ensures Refined(qu[|qu| - 1].acc, qu[0], item) == Xor(item.acc, Fold(Owns(qu)))
  {
    hide Xor;
    ChainDifference(qu, |qu| - 1);
    assert Owns(qu)[..|qu|] == Owns(qu);
    XorLaws(Fold(Owns(qu)), item.acc, ZERO);
  }

  class FollowerQueues {
    var unSyncedEntries: map<Key, Queue>

    ghost predicate Valid()
      reads this
    {
      forall k :: k in unSyncedEntries ==> Chained(unSyncedEntries[k]) && Increasing(unSyncedEntries[k])
    }

    constructor ()
      ensures Valid() && unSyncedEntries == map[]
    {
      unSyncedEntries := map[];
    }

    // Pushes the entry into the queue of key; then, if it is above the sync point,
    // pops what is not.  The entry itself stays, so the boundary exists.
    method ProcessKey(key: Key, e: LogEntry, item: SyncedHashItem) returns (acc: Hash, boundary: QuEntry)
      requires Valid() && IsNew(QueueOf(unSyncedEntries, key), e)
      modifies this
      ensures Valid()
      ensures unSyncedEntries == old(unSyncedEntries)[key := NewQueue(QueueOf(old(unSyncedEntries), key), e, item)]
      ensures unSyncedEntries[key] != [] && boundary == unSyncedEntries[key][0]
      ensures unSyncedEntries[key][|unSyncedEntries[key]| - 1].acc == acc == Behind(QueueOf(old(unSyncedEntries), key), e).acc
    {
      hide Chained, Increasing, Xor;
      var qu := QueueOf(unSyncedEntries, key);
      var entry := Behind(qu, e);
      EmptyShape();
      PushShape(qu, e);
      qu := qu + [entry];
      ghost var pushed, popped: nat := qu, 0;
      if item.deadline < e.deadline {
        while qu[0].deadline <= item.deadline
          invariant popped < |pushed| && qu == pushed[popped..]
          invariant Above(pushed, item.deadline) == Above(qu, item.deadline)
          decreases |qu|
        {
          assert |qu| > 1;
          qu := qu[1..];
          popped := popped + 1;
        }
      }
      SuffixShape(pushed, popped);
      unSyncedEntries := unSyncedEntries[key := qu];
      acc, boundary := entry.acc, qu[0];
    }

    // The loop over the keys of an entry.  It breaks at the first key whose sync
    // point is not below the entry: the n keys before it have a boundary, and it is
    // pushed as well.
    method ProcessKeys(e: LogEntry, keys: seq<Key>, items: map<Key, SyncedHashItem>)
      returns (n: nat, accs: map<Key, Hash>, boundaries: map<Key, QuEntry>)
      requires Valid() && Distinct(keys)
      requires forall k :: k in keys ==> k in items && IsNew(QueueOf(unSyncedEntries, k), e)
      modifies this
      ensures Valid() && BreaksAt(e, keys, items, n)
      ensures boundaries.Keys == KeySet(keys[..n])
      ensures accs.Keys == KeySet(keys[..if n < |keys| then n + 1 else n])
      ensures Queued(old(unSyncedEntries), unSyncedEntries, e, accs, items) && Found(unSyncedEntries, accs, boundaries)
    {
      hide Chained, Increasing, Xor, Behind, NewQueue, Queued, Found, QueueOf;
      accs, boundaries, n := map[], map[], 0;
      ghost var before := unSyncedEntries;
      NothingQueued(before, e, items);
      assert KeySet(keys[..0]) == {};
      while n < |keys|
        invariant n <= |keys| && Valid()
        invariant BelowSync(e, keys, items, n)
        invariant boundaries.Keys == accs.Keys == KeySet(keys[..n])
        invariant Queued(before, unSyncedEntries, e, accs, items) && Found(unSyncedEntries, accs, boundaries)
      {
        var key := keys[n];
        KeyStep(keys, n);
        ghost var mid := unSyncedEntries;
        OthersQueued(before, mid, e, accs, items, key);
        var acc, boundary := ProcessKey(key, e, items[key]);
        QueuedMore(before, mid, unSyncedEntries, e, accs, items, key, acc);
        FoundMore(mid, unSyncedEntries, accs, boundaries, key, acc, boundary);
        accs := accs[key := acc];
        if e.deadline <= items[key].deadline {
          break;
        }
        boundaries := boundaries[key := boundary];
        n := n + 1;
      }
    }

    // One entry: the queues, then the hash for every key.
    method FollowerExecute(e: LogEntry, keys: seq<Key>, items: map<Key, SyncedHashItem>) returns (n: nat, refined: map<Key, Hash>)
      requires Valid() && Distinct(keys)
      requires forall k :: k in keys ==> k in items && IsNew(QueueOf(unSyncedEntries, k), e)
      modifies this
      ensures Valid() && BreaksAt(e, keys, items, n)
      ensures forall k :: k in refined <==> k in keys
      ensures forall k :: k in keys[..n] ==>
                && QueueOf(unSyncedEntries, k) == Above(QueueOf(old(unSyncedEntries), k) + [Behind(QueueOf(old(unSyncedEntries), k), e)], items[k].deadline)
                && refined[k] == Xor(items[k].acc, Fold(Owns(QueueOf(unSyncedEntries, k))))
      ensures n < |keys| ==>
                var qu := QueueOf(old(unSyncedEntries), keys[n]);
                QueueOf(unSyncedEntries, keys[n]) == qu + [Behind(qu, e)] && refined[keys[n]] == Behind(qu, e).acc
      ensures forall k :: k !in keys[..if n < |keys| then n + 1 else n] ==>
                && QueueOf(unSyncedEntries, k) == QueueOf(old(unSyncedEntries), k)
                && (k in refined ==> refined[k] == ZERO)
    {
      hide Chained, Increasing, Xor, Behind, Queued, Found, QueueOf, Refined, Above, Fold;
      var accs, boundaries;
      n, accs, boundaries := ProcessKeys(e, keys, items);
      refined := map[];
      for i: nat := 0 to |keys|
        invariant forall k :: k in refined <==> k in keys[..i]
        invariant forall k :: k in refined ==> refined[k] == HashFor(k, items, accs, boundaries)
      {
        refined := refined[keys[i] := HashFor(keys[i], items, accs, boundaries)];
      }
      forall k | k in keys[..n]
        ensures QueueOf(unSyncedEntries, k) == Above(QueueOf(old(unSyncedEntries), k) + [Behind(QueueOf(old(unSyncedEntries), k), e)], items[k].deadline)
        ensures refined[k] == Xor(items[k].acc, Fold(Owns(QueueOf(unSyncedEntries, k))))
      {
        BelowSyncAt(e, keys, items, n, k);
        HashOfBounded(old(unSyncedEntries), unSyncedEntries, e, accs, items, boundaries, k);
      }
      if n < |keys| {
        KeyStep(keys, n);
        HashOfBreaking(old(unSyncedEntries), unSyncedEntries, e, accs, items, boundaries, keys[n]);
      }
      HashOfOthers(old(unSyncedEntries), unSyncedEntries, e, accs, items, boundaries);
    }
  }

  // What a key contributes to the fast reply.
  function HashFor(k: Key, items: map<Key, SyncedHashItem>, accs: map<Key, Hash>, boundaries: map<Key, QuEntry>): Hash {
    if k !in accs then ZERO
    else if k in boundaries && k in items then Refined(accs[k], boundaries[k], items[k])
    else accs[k]
  }

  ghost predicate BelowSync(e: LogEntry, keys: seq<Key>, items: map<Key, SyncedHashItem>, n: nat)
    requires n <= |keys|
  {
    forall i :: 0 <= i < n ==> keys[i] in items && items[keys[i]].deadline < e.deadline
  }

  lemma KeyStep(keys: seq<Key>, n: nat)
    requires Distinct(keys) && n < |keys|
    ensures KeySet(keys[..n + 1]) == KeySet(keys[..n]) + {keys[n]} && keys[n] !in KeySet(keys[..n])
  {
  }

  // The first n keys have sync points below the entry, the next, if any, does not.
  ghost predicate BreaksAt(e: LogEntry, keys: seq<Key>, items: map<Key, SyncedHashItem>, n: nat) {
    && n <= |keys| && BelowSync(e, keys, items, n)
    && (n < |keys| ==> keys[n] in items && e.deadline <= items[keys[n]].deadline)
  }

  // The entry has gone through exactly the queues of the keys in accs.
  ghost predicate Queued(before: map<Key, Queue>, after: map<Key, Queue>, e: LogEntry, accs: map<Key, Hash>, items: map<Key, SyncedHashItem>) {
    && (forall k :: k in accs ==>
          && k in items && QueueOf(after, k) == NewQueue(QueueOf(before, k), e, items[k])
          && accs[k] == Behind(QueueOf(before, k), e).acc)
    && (forall k :: k !in accs ==> QueueOf(after, k) == QueueOf(before, k))
  }

  // A boundary heads a queue that ends in the entry.
  ghost predicate Found(after: map<Key, Queue>, accs: map<Key, Hash>, boundaries: map<Key, QuEntry>) {
    forall k :: k in boundaries ==>
      && QueueOf(after, k) != [] && boundaries[k] == QueueOf(after, k)[0]
      && k in accs && QueueOf(after, k)[|QueueOf(after, k)| - 1].acc == accs[k]
  }

  lemma NothingQueued(before: map<Key, Queue>, e: LogEntry, items: map<Key, SyncedHashItem>)
    ensures Queued(before, before, e, map[], items) && Found(before, map[], map[])
  {
  }

  lemma OthersQueued(before: map<Key, Queue>, mid: map<Key, Queue>, e: LogEntry, accs: map<Key, Hash>, items: map<Key, SyncedHashItem>, key: Key)
    requires Queued(before, mid, e, accs, items) && key !in accs
    ensures QueueOf(mid, key) == QueueOf(before, key)
  {
  }

  lemma QueuedMore(before: map<Key, Queue>, mid: map<Key, Queue>, after: map<Key, Queue>, e: LogEntry, accs: map<Key, Hash>,
                   items: map<Key, SyncedHashItem>, key: Key, acc: Hash)
    requires Queued(before, mid, e, accs, items) && key !in accs && key in items
    requires after == mid[key := NewQueue(QueueOf(mid, key), e, items[key])] && acc == Behind(QueueOf(mid, key), e).acc
    ensures Queued(before, after, e, accs[key := acc], items)
  {
    hide Behind, NewQueue, QueueOf;
    QueueOfUpdate(mid, key, after[key]);
    assert after == mid[key := after[key]];
  }

  lemma QueueOfUpdate(qus: map<Key, Queue>, key: Key, qu: Queue)
    ensures QueueOf(qus[key := qu], key) == qu
    ensures forall k :: k != key ==> QueueOf(qus[key := qu], k) == QueueOf(qus, k)
  {
  }

  lemma FoundMore(mid: map<Key, Queue>, after: map<Key, Queue>, accs: map<Key, Hash>, boundaries: map<Key, QuEntry>,
                  key: Key, acc: Hash, boundary: QuEntry)
    requires Found(mid, accs, boundaries) && key !in accs && key in after && after == mid[key := after[key]]
    requires after[key] != [] && boundary == after[key][0] && after[key][|after[key]| - 1].acc == acc
    ensures Found(after, accs[key := acc], boundaries)
    ensures Found(after, accs[key := acc], boundaries[key := boundary])
  {
    hide QueueOf;
    QueueOfUpdate(mid, key, after[key]);
  }

  lemma BelowSyncAt(e: LogEntry, keys: seq<Key>, items: map<Key, SyncedHashItem>, n: nat, k: Key)
    requires n <= |keys| && BelowSync(e, keys, items, n) && k in keys[..n]
    ensures k in items && items[k].deadline < e.deadline
  {
  }

  lemma HashOfBounded(before: map<Key, Queue>, after: map<Key, Queue>, e: LogEntry, accs: map<Key, Hash>,
                      items: map<Key, SyncedHashItem>, boundaries: map<Key, QuEntry>, k: Key)
    requires Queued(before, after, e, accs, items) && Found(after, accs, boundaries)
    requires k in boundaries && k in items && items[k].deadline < e.deadline
    requires forall q :: q in after ==> Chained(after[q]) && Increasing(after[q])
    ensures QueueOf(after, k) == Above(QueueOf(before, k) + [Behind(QueueOf(before, k), e)], items[k].deadline)
    ensures HashFor(k, items, accs, boundaries) == Xor(items[k].acc, Fold(Owns(QueueOf(after, k))))
  {
    hide Chained, Increasing, Xor, Behind, Refined, Above, Fold;
    RefinedIsSyncedAndQueued(QueueOf(after, k), items[k]);
  }

  lemma HashOfBreaking(before: map<Key, Queue>, after: map<Key, Queue>, e: LogEntry, accs: map<Key, Hash>,
                       items: map<Key, SyncedHashItem>, boundaries: map<Key, QuEntry>, k: Key)
    requires Queued(before, after, e, accs, items) && k in accs && k !in boundaries && k in items && e.deadline <= items[k].deadline
    ensures var qu := QueueOf(before, k);
      QueueOf(after, k) == qu + [Behind(qu, e)] && HashFor(k, items, accs, boundaries) == Behind(qu, e).acc
  {
  }

  lemma HashOfOthers(before: map<Key, Queue>, after: map<Key, Queue>, e: LogEntry, accs: map<Key, Hash>,
                     items: map<Key, SyncedHashItem>, boundaries: map<Key, QuEntry>)
    requires Queued(before, after, e, accs, items)
    ensures forall k :: k !in accs ==> QueueOf(after, k) == QueueOf(before, k) && HashFor(k, items, accs, boundaries) == ZERO
  {
  }

  // ---------- the leader ----------

  class LeaderQueues {
    var syncedEntries: map<Key, Queue>
    var syncedLogList: seq<LogEntry>
    var nextSyncedLogId: nat

    // Every accumulated hash is the hash of all entries of the key so far.
    ghost predicate Valid()
      reads this
    {
      && (forall k :: k in syncedEntries ==> Accumulated(syncedEntries[k]))
      && nextSyncedLogId == |syncedLogList| + 1
    }

    constructor ()
      ensures Valid() && syncedEntries == map[] && syncedLogList == []
    {
      syncedEntries, syncedLogList, nextSyncedLogId := map[], [], 1;
    }

    method LeaderNormalExecute(e: LogEntry, keys: set<Key>) returns (logId: nat, accs: map<Key, Hash>)
      requires Valid()
      modifies this
      ensures Valid() && syncedLogList == old(syncedLogList) + [e] && logId == |syncedLogList|
      ensures forall k :: QueueOf(syncedEntries, k) ==
                          if k in keys then QueueOf(old(syncedEntries), k) + [Behind(QueueOf(old(syncedEntries), k), e)]
                          else QueueOf(old(syncedEntries), k)
      ensures accs.Keys == keys && forall k :: k in keys ==> accs[k] == Fold(Owns(QueueOf(syncedEntries, k)))
    {
      hide Accumulated, Behind, Fold, QueueOf;
      logId := nextSyncedLogId;
      nextSyncedLogId := nextSyncedLogId + 1;
      accs := map[];
      ghost var before := syncedEntries;
      var todo := keys;
      while todo != {}
        invariant todo <= keys && accs.Keys == keys - todo
        invariant syncedLogList == old(syncedLogList) && nextSyncedLogId == |syncedLogList| + 2
        invariant forall k :: k in syncedEntries ==> Accumulated(syncedEntries[k])
        invariant forall k :: QueueOf(syncedEntries, k) ==
                              if k in accs then QueueOf(before, k) + [Behind(QueueOf(before, k), e)] else QueueOf(before, k)
        invariant forall k :: k in accs ==> accs[k] == Fold(Owns(QueueOf(syncedEntries, k)))
        decreases todo
      {
        var key: Key :| key in todo;
        var qu := QueueOf(syncedEntries, key);
        var entry := Behind(qu, e);
        QueueOfShape(syncedEntries, key);
        AccumulatedMore(qu, e);
        QueueOfUpdate(syncedEntries, key, qu + [entry]);
        syncedEntries := syncedEntries[key := qu + [entry]];
        accs := accs[key := entry.acc];
        todo := todo - {key};
      }
      syncedLogList := syncedLogList + [e];
    }
  }

  ghost predicate Accumulated(qu: Queue) {
    forall i :: 0 <= i < |qu| ==> qu[i].acc == Fold(Owns(qu)[..i + 1])
  }

  lemma QueueOfShape(qus: map<Key, Queue>, key: Key)
    requires forall k :: k in qus ==> Accumulated(qus[k])
    ensures Accumulated(QueueOf(qus, key))
  {
  }

  lemma AccumulatedMore(qu: Queue, e: LogEntry)
    requires Accumulated(qu)
    ensures Accumulated(qu + [Behind(qu, e)])
    ensures Behind(qu, e).acc == Fold(Owns(qu + [Behind(qu, e)]))
  {
    hide Xor, Fold;
    var qu' := qu + [Behind(qu, e)];
    assert Owns(qu') == Owns(qu) + [e.own];
    FoldConcat(Owns(qu), [e.own]);
    FoldOne(e.own);
    if qu == [] {
      assert Owns(qu') == [e.own];
    } else {
      assert Owns(qu)[..|qu|] == Owns(qu);
      XorLaws(Fold(Owns(qu)), e.own, ZERO);
    }
    assert Owns(qu')[..|qu'|] == Owns(qu');
    forall i | 0 <= i < |qu'|
      ensures qu'[i].acc == Fold(Owns(qu')[..i + 1])
    {
      if i < |qu| {
        assert Owns(qu')[..i + 1] == Owns(qu)[..i + 1];
      }
    }
  }

  // ---------- agreement ----------

  // A follower's hash for a key is the leader's, when what is synced and what is
  // queued are together the leader's entries for the key, in whatever order.
  lemma FastHashAgrees(leader: Queue, synced: seq<Hash>, item: SyncedHashItem, queued: Queue)
    requires item.acc == Fold(synced)
    requires multiset(Owns(leader)) == multiset(synced + Owns(queued))
    ensures Fold(Owns(leader)) == Xor(item.acc, Fold(Owns(queued)))
  {
    FoldPermutation(Owns(leader), synced + Owns(queued));
    FoldConcat(synced, Owns(queued));
  }

  // The hash of a fast reply, over the keys in the order the program meets them;
  // mix stands for AddKeyToHash.
  function Mixed(order: seq<Key>, accs: map<Key, Hash>, mix: (Hash, Key) -> Hash): (hs: seq<Hash>)
    requires forall k :: k in order ==> k in accs
    ensures |hs| == |order|
    ensures forall i :: 0 <= i < |order| ==> hs[i] == mix(accs[order[i]], order[i])
  {
    seq(|order|, i requires 0 <= i < |order| => mix(accs[order[i]], order[i]))
  }

  lemma MixedWithout(b: seq<Key>, i: nat, accs: map<Key, Hash>, mix: (Hash, Key) -> Hash)
    requires i < |b| && forall k :: k in b ==> k in accs
    ensures forall k :: k in b[..i] + b[i + 1..] ==> k in b
    ensures multiset(Mixed(b[..i] + b[i + 1..], accs, mix)) == multiset(Mixed(b, accs, mix)) - multiset{mix(accs[b[i]], b[i])}
  {
    var rest := b[..i] + b[i + 1..];
    assert forall k :: k in rest ==> k in b;
    var mb := Mixed(b, accs, mix);
    assert Mixed(rest, accs, mix) == mb[..i] + mb[i + 1..];
    MultisetWithout(mb, i);
  }

  // The first element of one list, and what is left of the other without it.
  lemma SameElsewhere(a: seq<Key>, b: seq<Key>) returns (i: nat)
    requires multiset(a) == multiset(b) && a != []
    ensures i < |b| && b[i] == a[0] && multiset(a[1..]) == multiset(b[..i] + b[i + 1..])
  {
    assert a[0] in multiset(b);
    i :| i < |b| && b[i] == a[0];
    assert a[..0] + a[1..] == a[1..];
    MultisetWithout(a, 0);
    MultisetWithout(b, i);
  }

  lemma MixedRest(a: seq<Key>, accs: map<Key, Hash>, mix: (Hash, Key) -> Hash)
    requires a != [] && forall k :: k in a ==> k in accs
    ensures forall k :: k in a[1..] ==> k in a
    ensures multiset(Mixed(a[1..], accs, mix)) == multiset(Mixed(a, accs, mix)) - multiset{mix(accs[a[0]], a[0])}
  {
    hide Mixed;
    MixedWithout(a, 0, accs, mix);
    assert a[..0] + a[0 + 1..] == a[1..];
  }

  lemma PutBack(a: seq<Key>, b: seq<Key>, i: nat, accs: map<Key, Hash>, mix: (Hash, Key) -> Hash)
    requires a != [] && i < |b| && b[i] == a[0] && forall k :: k in a || k in b ==> k in accs
    ensures forall k :: k in a[1..] || k in b[..i] + b[i + 1..] ==> k in accs
    ensures multiset(Mixed(a[1..], accs, mix)) == multiset(Mixed(b[..i] + b[i + 1..], accs, mix)) ==>
              multiset(Mixed(a, accs, mix)) == multiset(Mixed(b, accs, mix))
  {
    hide Mixed;
    MixedRest(a, accs, mix);
    MixedWithout(b, i, accs, mix);
    SameWithout(Mixed(a, accs, mix), Mixed(b, accs, mix), mix(accs[a[0]], a[0]), 0, i);
  }

  lemma SameWithout(a: seq<Hash>, b: seq<Hash>, x: Hash, i: nat, j: nat)
    requires i < |a| && j < |b| && a[i] == b[j] == x
    ensures multiset(a) - multiset{x} == multiset(b) - multiset{x} ==> multiset(a) == multiset(b)
  {
    if multiset(a) - multiset{x} == multiset(b) - multiset{x} {
      AddBack(a, b, x, i, j);
    }
  }

  lemma {:induction false} MixedPermutation(a: seq<Key>, b: seq<Key>, accs: map<Key, Hash>, mix: (Hash, Key) -> Hash)
    requires multiset(a) == multiset(b) && forall k :: k in a || k in b ==> k in accs
    ensures multiset(Mixed(a, accs, mix)) == multiset(Mixed(b, accs, mix))
    decreases |a|
  {
    hide Mixed;
    if a == [] {
      assert |multiset(b)| == 0;
    } else {
      var i := SameElsewhere(a, b);
      PutBack(a, b, i, accs, mix);
      MixedPermutation(a[1..], b[..i] + b[i + 1..], accs, mix);
    }
  }

  lemma AddBack(a: seq<Hash>, b: seq<Hash>, x: Hash, i: nat, j: nat)
    requires i < |a| && j < |b| && a[i] == b[j] == x
    requires multiset(a) - multiset{x} == multiset(b) - multiset{x}
    ensures multiset(a) == multiset(b)
  {
    assert x in a && x in b;
    assert multiset(a) == (multiset(a) - multiset{x}) + multiset{x};
    assert multiset(b) == (multiset(b) - multiset{x}) + multiset{x};
  }

  // The leader goes over a hash table, the follower over a sorted set.
  lemma ReplyHashAgrees(a: seq<Key>, b: seq<Key>, accsA: map<Key, Hash>, accsB: map<Key, Hash>, mix: (Hash, Key) -> Hash)
    requires multiset(a) == multiset(b) && forall k :: k in a || k in b ==> k in accsA && k in accsB && accsA[k] == accsB[k]
    ensures Fold(Mixed(a, accsA, mix)) == Fold(Mixed(b, accsB, mix))
  {
    MixedPermutation(a, b, accsA, mix);
    assert Mixed(b, accsA, mix) == Mixed(b, accsB, mix);
    FoldPermutation(Mixed(a, accsA, mix), Mixed(b, accsA, mix));
  }
}
