/**
 StateMachine/YCSBStateMachine.cc: records with exclusive locks, executed plainly or
 speculatively.  An operation works on the local keys of a transaction one by one;
 a key stands for the record MappedRecordId gives.  Shown: a decomposed swap is
 atomic, and rolling a speculative execution back removes every trace of it.
 */
module YCSBStateMachine {
  import opened Collections
  import opened YCSBRows

  const MAX_KEY_NUM: nat := 2000005
  const UINT32: int := 0x1_0000_0000
  const LOCK_CONFLICT_FLAG := -1
  const INCREMENT_ERROR_FLAG := -2

  // ---------- which record a key stands for ----------

  datatype Shard = Shard(num: nat, id: nat)

  ghost predicate ShardOk(m: Shard) {
    m.id < m.num <= MAX_KEY_NUM
  }

  // Unsigned 32-bit arithmetic on an int32_t key.
  function MappedRecordId(m: Shard, key: int): (id: nat)
    requires m.num > 0
  {
    (Quotient(key % UINT32, m.num) + Offset(m)) % UINT32
  }

  function Quotient(x: nat, n: nat): nat
    requires n > 0
  {
    x / n
  }

  // Where the shard's records start.
  function Offset(m: Shard): nat
    requires m.num > 0
  {
    MAX_KEY_NUM / m.num * m.id
  }

  // The keys that InitializeRelatedShards gives to this shard.
  predicate IsLocal(m: Shard, key: int)
    requires m.num > 0
  {
    (key % UINT32) % m.num == m.id
  }

  lemma ProductBound(a: nat, b: nat, c: nat)
    requires a <= b
    ensures a * c <= b * c
  {
  }

  lemma OffsetBound(m: Shard)
    requires ShardOk(m)
    ensures Offset(m) + MAX_KEY_NUM / m.num <= MAX_KEY_NUM
    ensures m.num == 1 ==> Offset(m) == 0
  {
    var a := MAX_KEY_NUM / m.num;
    QuotientBound(MAX_KEY_NUM, m.num);
    ProductBound(m.id + 1, m.num, a);
    assert (m.id + 1) * a == a * m.id + a;
  }

  lemma QuotientBound(x: nat, n: nat)
    requires n > 0
    ensures n * Quotient(x, n) <= x < n * Quotient(x, n) + n
  {
  }

  lemma QuotientSmall(x: nat, n: nat)
    requires n > 0 && x < UINT32
    ensures Quotient(x, n) < UINT32 && (n >= 2 ==> Quotient(x, n) <= UINT32 / 2)
  {
  }

  // Without overflow: the sum stays below 2^32.
  lemma MappedIsSum(m: Shard, key: int)
    requires ShardOk(m)
    ensures MappedRecordId(m, key) == Quotient(key % UINT32, m.num) + Offset(m)
  {
    hide Quotient, Offset;
    OffsetBound(m);
    QuotientSmall(key % UINT32, m.num);
  }

  // Different keys of a shard stand for different records.
  lemma MappedInjective(m: Shard, k1: int, k2: int)
    requires ShardOk(m) && IsLocal(m, k1) && IsLocal(m, k2)
    requires 0 <= k1 < UINT32 && 0 <= k2 < UINT32
    requires MappedRecordId(m, k1) == MappedRecordId(m, k2)
    ensures k1 == k2
  {
    MappedIsSum(m, k1);
    MappedIsSum(m, k2);
    var q := k1 / m.num;
    assert k1 == q * m.num + m.id;
    assert k2 == q * m.num + m.id;
  }

  // A key's record lies in the table exactly when the key is below this bound ...
  lemma MappedInTable(m: Shard, key: int)
    requires ShardOk(m) && 0 <= key < UINT32
    ensures MappedRecordId(m, key) < MAX_KEY_NUM <==> key < m.num * (MAX_KEY_NUM - Offset(m))
  {
    hide Quotient, Offset;
    MappedIsSum(m, key);
    OffsetBound(m);
    DivBelow(key, m.num, MAX_KEY_NUM - Offset(m));
  }

  lemma DivBelow(x: nat, n: nat, c: nat)
    requires n > 0
    ensures Quotient(x, n) < c <==> x < n * c
  {
    var q := Quotient(x, n);
    QuotientBound(x, n);
    if q < c {
      ProductBound(q + 1, c, n);
    } else {
      ProductBound(c, q, n);
    }
  }

  // ... which covers every key below YCSB_MAX_KEY_NUM of this shard.
  lemma LocalKeysInTable(m: Shard, key: nat)
    requires ShardOk(m) && key < MAX_KEY_NUM && IsLocal(m, key)
    ensures MappedRecordId(m, key) < MAX_KEY_NUM
  {
    MappedIsSum(m, key);
    var a, q := MAX_KEY_NUM / m.num, key / m.num;
    assert key == q * m.num + m.id;
    if q >= a {
      QuotientTop(q, a, m.num, m.id);
    }
    SumBound(a, q, m);
  }

  lemma QuotientTop(q: nat, a: nat, n: nat, id: nat)
    requires id < n && q * n + id < MAX_KEY_NUM && a == MAX_KEY_NUM / n && q >= a
    ensures q == a && a * n + id < MAX_KEY_NUM
  {
    assert MAX_KEY_NUM < (a + 1) * n;
    if q > a {
      ProductBound(a + 1, q, n);
    }
  }

  lemma SumBound(a: nat, q: nat, m: Shard)
    requires ShardOk(m) && a == MAX_KEY_NUM / m.num
    requires q < a || (q == a && a * m.num + m.id < MAX_KEY_NUM)
    ensures q + a * m.id < MAX_KEY_NUM
  {
    OffsetBound(m);
    if q == a {
      ProductBound(m.id + 1, m.num, a);
      assert (m.id + 1) * a == a * m.id + a && m.num * a == a * m.num;
    }
  }

  // ---------- one key ----------

  datatype Op = Read | Update | Insert | Swap | LockRead | WriteUnlock | Unlock | Increment | NoOp

  datatype Value = Str(s: string) | Int(i: int) | Unknown

  type Values = map<int, Value>

  datatype Record = Record(row: string, owner: nat)

  function At(vs: Values, k: int): Value {
    if k in vs then vs[k] else Unknown
  }

  function ParseOwner(v: Value): nat {
    if v.Str? then OwnerOf(v.s) else NO_OWNER
  }

  function NewRow(v: Value): string {
    if v.Str? then RowOf(v.s) else ""
  }

  // The text of a value that must be one.
  function Text(v: Value): string {
    if v.Str? then v.s else ""
  }

  // The key whose value the swap puts into key: the one before it, cyclically.
  ghost predicate IsPrev(keys: set<int>, key: int, p: int) {
    && p in keys
    && if exists q :: q in keys && q < key then p < key && forall q :: q in keys && q < key ==> q <= p
       else forall q :: q in keys ==> q <= p
  }

  lemma HasElement(keys: set<int>)
    requires keys != {}
    ensures exists x :: x in keys
  {
    if forall x: int :: x !in keys {
      assert false;
    }
  }

  lemma {:induction false} MaxExists(keys: set<int>) returns (p: int)
    requires keys != {}
    ensures p in keys && forall q :: q in keys ==> q <= p
    decreases |keys|
  {
    HasElement(keys);
    var x :| x in keys;
    if keys == {x} {
      p := x;
    } else {
      var rest := keys - {x};
      p := MaxExists(rest);
      if p < x {
        p := x;
      }
      forall q | q in keys
        ensures q <= p
      {
        assert q == x || q in rest;
      }
    }
  }

  lemma PrevExists(keys: set<int>, key: int)
    requires keys != {}
    ensures exists p :: IsPrev(keys, key, p)
  {
    var below := set q | q in keys && q < key;
    if q :| q in keys && q < key {
      assert q in below;
      var p := MaxExists(below);
      assert forall x :: x in keys && x < key ==> x in below;
      assert IsPrev(keys, key, p);
    } else {
      var p := MaxExists(keys);
      assert IsPrev(keys, key, p);
    }
  }

  ghost function Prev(keys: set<int>, key: int): (p: int)
    requires keys != {}
    ensures IsPrev(keys, key, p)
  {
    PrevExists(keys, key);
    var p :| IsPrev(keys, key, p);
    p
  }

  // The record after the operation, and what is added to the output.
  ghost function OnKey(op: Op, key: int, input: Values, r: Record): (Record, Values) {
    var v := At(input, key);
    match op
    case Read => (r, map[key := Str(r.row)])
    case Update => if r.owner != NO_OWNER then (r, map[LOCK_CONFLICT_FLAG := Int(1)]) else (r.(row := Text(v)), map[key := Str(Text(v))])
    case Insert => if r.owner != NO_OWNER then (r, map[LOCK_CONFLICT_FLAG := Int(1)]) else (r.(row := Text(v)), map[key := Str(Text(v))])
    case Swap =>
      if key !in input then (r, map[])
      else
        var row := Text(input[Prev(input.Keys, key)]);
        (r.(row := row), map[key := Str(row)])
    case LockRead =>
      var owner := ParseOwner(v);
      if owner != NO_OWNER && (r.owner == NO_OWNER || r.owner == owner) then (r.(owner := owner), map[key := Str("1" + r.row)])
      else (r, map[key := Str("0")])
    case WriteUnlock =>
      var owner := ParseOwner(v);
      if owner != NO_OWNER && r.owner == owner then (Record(NewRow(v), NO_OWNER), map[key := Str("1")])
      else (r, map[key := Str("0")])
    case Unlock =>
      var owner := ParseOwner(v);
      (if owner != NO_OWNER && r.owner == owner then r.(owner := NO_OWNER) else r, map[key := Str("1")])
    case Increment =>
      if r.owner != NO_OWNER then (r, map[LOCK_CONFLICT_FLAG := Int(1)])
      else if Incremented(r.row, Text(v)).None? then (r, map[INCREMENT_ERROR_FLAG := Int(1)])
      else (r.(row := Incremented(r.row, Text(v)).value), map[key := Str(Incremented(r.row, Text(v)).value)])
    case NoOp => (r, map[])
  }

  // ---------- transactions ----------

  datatype Undo = Undo(txnId: nat, row: string, owner: nat)

  datatype Store = Store(rows: seq<string>, owners: seq<nat>, undo: map<int, Undo>)

  datatype Txn = Txn(op: Op, keys: seq<int>, input: Values)

  ghost predicate StoreOk(s: Store) {
    |s.rows| == |s.owners|
  }

  // The keys' records exist, as indexing the vectors needs.
  ghost predicate InTable(m: Shard, keys: seq<int>, size: nat) {
    m.num > 0 && forall k :: k in keys ==> MappedRecordId(m, k) < size
  }

  function RecordAt(s: Store, id: nat): Record
    requires id < |s.rows| == |s.owners|
  {
    Record(s.rows[id], s.owners[id])
  }

  function PutRecord(s: Store, id: nat, r: Record): Store
    requires id < |s.rows| == |s.owners|
  {
    s.(rows := s.rows[id := r.row], owners := s.owners[id := r.owner])
  }

  ghost function Executed(m: Shard, s: Store, t: Txn): (result: (Store, Values))
    requires StoreOk(s) && InTable(m, t.keys, |s.rows|)
    ensures StoreOk(result.0) && |result.0.rows| == |s.rows| && result.0.undo == s.undo
    decreases |t.keys|
  {
    if t.keys == [] then (s, map[])
    else
      var k := t.keys[|t.keys| - 1];
      var (s1, out) := Executed(m, s, t.(keys := t.keys[..|t.keys| - 1]));
      var id := MappedRecordId(m, k);
      var (r, more) := OnKey(t.op, k, t.input, RecordAt(s1, id));
      (PutRecord(s1, id, r), out + more)
  }

  ghost function Ids(m: Shard, keys: seq<int>): set<nat>
    requires m.num > 0
  {
    set k | k in keys :: MappedRecordId(m, k)
  }

  ghost predicate DistinctRecords(m: Shard, keys: seq<int>)
    requires m.num > 0
  {
    forall i, j :: 0 <= i < j < |keys| ==> keys[i] != keys[j] && MappedRecordId(m, keys[i]) != MappedRecordId(m, keys[j])
  }

  // Records of other keys are left alone.
  lemma {:induction false} ExecuteElsewhere(m: Shard, s: Store, t: Txn, id: nat)
    requires StoreOk(s) && InTable(m, t.keys, |s.rows|) && id < |s.rows| && id !in Ids(m, t.keys)
    ensures RecordAt(Executed(m, s, t).0, id) == RecordAt(s, id)
    decreases |t.keys|
  {
    hide OnKey, MappedRecordId;
    if t.keys != [] {
      var k := t.keys[|t.keys| - 1];
      assert k in t.keys;
      assert MappedRecordId(m, k) in Ids(m, t.keys);
      var front := t.(keys := t.keys[..|t.keys| - 1]);
      assert Ids(m, front.keys) <= Ids(m, t.keys);
      ExecuteElsewhere(m, s, front, id);
    }
  }

  // With one key per record, every key is executed on the record it found.
  lemma {:induction false} ExecuteAt(m: Shard, s: Store, t: Txn, i: nat)
    requires StoreOk(s) && InTable(m, t.keys, |s.rows|) && DistinctRecords(m, t.keys) && i < |t.keys|
    ensures var (r, out) := OnKey(t.op, t.keys[i], t.input, RecordAt(s, MappedRecordId(m, t.keys[i])));
      && RecordAt(Executed(m, s, t).0, MappedRecordId(m, t.keys[i])) == r
      && (t.keys[i] in out && t.keys[i] >= 0 ==> t.keys[i] in Executed(m, s, t).1 && Executed(m, s, t).1[t.keys[i]] == out[t.keys[i]])
    decreases |t.keys|
  {
    hide OnKey, MappedRecordId;
    var n := |t.keys| - 1;
    var front := t.(keys := t.keys[..n]);
    if i < n {
      ExecuteAt(m, s, front, i);
      OutputKeys(t.op, t.keys[n], t.input, RecordAt(Executed(m, s, front).0, MappedRecordId(m, t.keys[n])));
    } else {
      assert forall k :: k in front.keys ==> k in t.keys;
      ExecuteElsewhere(m, s, front, MappedRecordId(m, t.keys[n]));
    }
  }

  lemma OutputKeys(op: Op, key: int, input: Values, r: Record)
    ensures forall k :: k in OnKey(op, key, input, r).1 ==> k == key || k < 0
  {
  }

  // ---------- a decomposed swap ----------

  // A transaction of anyone but owner; YCSB_SWAP alone ignores locks.
  ghost predicate Foreign(t: Txn, owner: nat) {
    && t.op != Swap
    && (t.op in {LockRead, WriteUnlock, Unlock} ==> forall k :: k in t.keys ==> ParseOwner(At(t.input, k)) != owner)
  }

  lemma LockedKey(op: Op, key: int, input: Values, r: Record)
    requires r.owner != NO_OWNER && op != Swap
    requires op in {LockRead, WriteUnlock, Unlock} ==> ParseOwner(At(input, key)) != r.owner
    ensures OnKey(op, key, input, r).0 == r
  {
  }

  lemma {:induction false} LockedByOwner(m: Shard, s: Store, t: Txn, id: nat)
    requires StoreOk(s) && InTable(m, t.keys, |s.rows|) && id < |s.rows|
    requires s.owners[id] != NO_OWNER && Foreign(t, s.owners[id])
    ensures RecordAt(Executed(m, s, t).0, id) == RecordAt(s, id)
    decreases |t.keys|
  {
    hide OnKey, MappedRecordId, ParseOwner;
    if t.keys != [] {
      var front := t.(keys := t.keys[..|t.keys| - 1]);
      LockedByOwner(m, s, front, id);
      LockedKey(t.op, t.keys[|t.keys| - 1], t.input, RecordAt(s, id));
    }
  }

  ghost predicate AllInTable(m: Shard, ts: seq<Txn>, size: nat) {
    forall i :: 0 <= i < |ts| ==> InTable(m, ts[i].keys, size)
  }

  ghost function RunAll(m: Shard, s: Store, ts: seq<Txn>): (r: Store)
    requires StoreOk(s) && AllInTable(m, ts, |s.rows|)
    ensures StoreOk(r) && |r.rows| == |s.rows| && r.undo == s.undo
  {
    if ts == [] then s else Executed(m, RunAll(m, s, ts[..|ts| - 1]), ts[|ts| - 1]).0
  }

  // Whoever holds a record's lock finds it as he left it.
  lemma {:induction false} LockedThroughout(m: Shard, s: Store, ts: seq<Txn>, id: nat)
    requires StoreOk(s) && AllInTable(m, ts, |s.rows|) && id < |s.rows| && s.owners[id] != NO_OWNER
    requires forall i :: 0 <= i < |ts| ==> Foreign(ts[i], s.owners[id])
    ensures RecordAt(RunAll(m, s, ts), id) == RecordAt(s, id)
  {
    hide Executed, Foreign;
    if ts != [] {
      LockedThroughout(m, s, ts[..|ts| - 1], id);
      LockedByOwner(m, RunAll(m, s, ts[..|ts| - 1]), ts[|ts| - 1], id);
    }
  }

  // All keys were locked, as the client sees from the output.
  ghost predicate Granted(keys: seq<int>, out: Values) {
    forall k :: k in keys ==> k in out && out[k].Str? && out[k].s != "" && out[k].s[0] == '1'
  }

  ghost predicate OwnedBy(keys: seq<int>, input: Values, owner: nat) {
    forall k :: k in keys ==> ParseOwner(At(input, k)) == owner
  }

  lemma LockGives(m: Shard, s: Store, t: Txn, owner: nat, i: nat)
    requires StoreOk(s) && InTable(m, t.keys, |s.rows|) && DistinctRecords(m, t.keys) && i < |t.keys|
    requires t.op == LockRead && OwnedBy(t.keys, t.input, owner) && owner != NO_OWNER && t.keys[i] >= 0
    requires Granted(t.keys, Executed(m, s, t).1)
    ensures var id := MappedRecordId(m, t.keys[i]);
      && RecordAt(Executed(m, s, t).0, id) == Record(s.rows[id], owner)
      && Executed(m, s, t).1[t.keys[i]] == Str("1" + s.rows[id])
  {
    hide Executed, MappedRecordId, DistinctRecords, ParseOwner;
    ExecuteAt(m, s, t, i);
    assert t.keys[i] in t.keys;
  }

  lemma UnlockGives(m: Shard, s: Store, t: Txn, owner: nat, i: nat)
    requires StoreOk(s) && InTable(m, t.keys, |s.rows|) && DistinctRecords(m, t.keys) && i < |t.keys|
    requires t.op == WriteUnlock && OwnedBy(t.keys, t.input, owner) && owner != NO_OWNER && t.keys[i] >= 0
    requires s.owners[MappedRecordId(m, t.keys[i])] == owner
    ensures RecordAt(Executed(m, s, t).0, MappedRecordId(m, t.keys[i])) == Record(NewRow(At(t.input, t.keys[i])), NO_OWNER)
    ensures t.keys[i] in Executed(m, s, t).1 && Executed(m, s, t).1[t.keys[i]] == Str("1")
  {
    hide Executed, MappedRecordId, DistinctRecords, ParseOwner, NewRow;
    ExecuteAt(m, s, t, i);
    assert t.keys[i] in t.keys;
  }

  // A lock transaction, others' transactions, and the unlocking one.
  ghost predicate IsDecomposed(m: Shard, s: Store, lock: Txn, others: seq<Txn>, unlock: Txn, owner: nat) {
    && StoreOk(s) && InTable(m, lock.keys, |s.rows|) && AllInTable(m, others, |s.rows|) && DistinctRecords(m, lock.keys)
    && owner != NO_OWNER && lock.op == LockRead && unlock.op == WriteUnlock && lock.keys == unlock.keys
    && OwnedBy(lock.keys, lock.input, owner) && OwnedBy(lock.keys, unlock.input, owner)
    && (forall k :: k in lock.keys ==> k >= 0)
    && Granted(lock.keys, Executed(m, s, lock).1)
    && (forall i :: 0 <= i < |others| ==> Foreign(others[i], owner))
  }

  lemma DecomposedAt(m: Shard, s: Store, lock: Txn, others: seq<Txn>, unlock: Txn, owner: nat, k: int)
    requires IsDecomposed(m, s, lock, others, unlock, owner) && k in lock.keys
    ensures var (s1, read) := Executed(m, s, lock);
      var s2 := RunAll(m, s1, others);
      var (s3, done) := Executed(m, s2, unlock);
      var id := MappedRecordId(m, k);
      && k in read && read[k] == Str("1" + s2.rows[id]) && s2.owners[id] == owner
      && RecordAt(s3, id) == Record(NewRow(At(unlock.input, k)), NO_OWNER)
      && k in done && done[k] == Str("1")
  {
    hide Executed, RunAll, MappedRecordId, Foreign, Granted, OwnedBy, DistinctRecords, NewRow;
    var (s1, read) := Executed(m, s, lock);
    var s2 := RunAll(m, s1, others);
    var i: nat :| i < |lock.keys| && lock.keys[i] == k;
    LockGives(m, s, lock, owner, i);
    GrantedAt(lock.keys, read, k);
    LockedThroughout(m, s1, others, MappedRecordId(m, k));
    UnlockGives(m, s2, unlock, owner, i);
  }

  // Lock, whatever others do meanwhile, then write and unlock: the rows read are
  // still there when the new ones are written, every write succeeds, and nothing
  // else is touched.
  lemma DecomposedIsAtomic(m: Shard, s: Store, lock: Txn, others: seq<Txn>, unlock: Txn, owner: nat)
    requires IsDecomposed(m, s, lock, others, unlock, owner)
    ensures var (s1, read) := Executed(m, s, lock);
      var s2 := RunAll(m, s1, others);
      var (s3, done) := Executed(m, s2, unlock);
      && (forall k :: k in lock.keys ==>
            var id := MappedRecordId(m, k);
            && k in read && read[k] == Str("1" + s2.rows[id]) && s2.owners[id] == owner
            && RecordAt(s3, id) == Record(NewRow(At(unlock.input, k)), NO_OWNER)
            && k in done && done[k] == Str("1"))
      && (forall id :: 0 <= id < |s.rows| && id !in Ids(m, lock.keys) ==> RecordAt(s3, id) == RecordAt(s2, id))
  {
    hide Executed, RunAll, MappedRecordId, Foreign, Granted, OwnedBy, DistinctRecords, NewRow, Ids;
    var s2 := RunAll(m, Executed(m, s, lock).0, others);
    forall k | k in lock.keys
      ensures var id := MappedRecordId(m, k);
        var (s1, read) := Executed(m, s, lock);
        && k in read && read[k] == Str("1" + s2.rows[id]) && s2.owners[id] == owner
        && RecordAt(Executed(m, s2, unlock).0, id) == Record(NewRow(At(unlock.input, k)), NO_OWNER)
        && k in Executed(m, s2, unlock).1 && Executed(m, s2, unlock).1[k] == Str("1")
    {
      DecomposedAt(m, s, lock, others, unlock, owner, k);
    }
    forall id: nat | id < |s.rows| && id !in Ids(m, lock.keys)
      ensures RecordAt(Executed(m, s2, unlock).0, id) == RecordAt(s2, id)
    {
      ExecuteElsewhere(m, s2, unlock, id);
    }
  }

  lemma GrantedAt(keys: seq<int>, out: Values, k: int)
    requires Granted(keys, out) && k in keys
    ensures k in out
  {
  }

  lemma IndexOf(m: Shard, keys: seq<int>, id: nat) returns (i: nat)
    requires m.num > 0 && id in Ids(m, keys)
    ensures i < |keys| && MappedRecordId(m, keys[i]) == id
  {
    var k :| k in keys && MappedRecordId(m, k) == id;
    i :| i < |keys| && keys[i] == k;
  }

  // ---------- a decomposed swap over several shards ----------

  // What a shard does for a decomposed swap: its store, the locking transaction,
  // transactions of others, and the unlocking one.
  datatype Part = Part(m: Shard, s: Store, lock: Txn, others: seq<Txn>, unlock: Txn)

  ghost predicate PartOk(p: Part, owner: nat) {
    IsDecomposed(p.m, p.s, p.lock, p.others, p.unlock, owner)
  }

  ghost function WhatIsRead(p: Part, owner: nat): Values
    requires PartOk(p, owner)
  {
    Executed(p.m, p.s, p.lock).1
  }

  // The store the unlocking transaction finds, and the one it leaves.
  ghost function AtWrite(p: Part, owner: nat): (s: Store)
    requires PartOk(p, owner)
    ensures StoreOk(s) && |s.rows| == |p.s.rows|
  {
    RunAll(p.m, Executed(p.m, p.s, p.lock).0, p.others)
  }

  ghost function AfterWrite(p: Part, owner: nat): (s: Store)
    requires PartOk(p, owner)
    ensures StoreOk(s) && |s.rows| == |p.s.rows|
  {
    Executed(p.m, AtWrite(p, owner), p.unlock).0
  }

  ghost function AllKeys(parts: seq<Part>): set<int> {
    set i, k | 0 <= i < |parts| && k in parts[i].lock.keys :: k
  }

  ghost function Home(parts: seq<Part>, k: int): (i: nat)
    requires k in AllKeys(parts)
    ensures i < |parts| && k in parts[i].lock.keys
  {
    var i :| 0 <= i < |parts| && k in parts[i].lock.keys;
    i
  }

  ghost predicate PartsOk(parts: seq<Part>, owner: nat) {
    forall i :: 0 <= i < |parts| ==> PartOk(parts[i], owner)
  }

  // What the client read for a key.
  ghost function ReadFor(parts: seq<Part>, owner: nat, k: int): Value
    requires PartsOk(parts, owner) && k in AllKeys(parts)
  {
    At(WhatIsRead(parts[Home(parts, k)], owner), k)
  }

  // The row of a key's record when its shard writes.
  ghost function RowAtWrite(parts: seq<Part>, owner: nat, k: int): string
    requires PartsOk(parts, owner) && k in AllKeys(parts)
  {
    var p := parts[Home(parts, k)];
    KeyInTable(p, owner, k);
    AtWrite(p, owner).rows[MappedRecordId(p.m, k)]
  }

  lemma KeyInTable(p: Part, owner: nat, k: int)
    requires PartOk(p, owner) && k in p.lock.keys
    ensures p.m.num > 0 && MappedRecordId(p.m, k) < |p.s.rows|
  {
  }

  ghost function Source(parts: seq<Part>, k: int): (p: int)
    requires k in AllKeys(parts)
    ensures p in AllKeys(parts)
  {
    Prev(AllKeys(parts), k)
  }

  // To each key the client writes the row it read for the key before it, cyclically
  // over the keys of all shards.
  ghost predicate Rotates(parts: seq<Part>, owner: nat)
    requires PartsOk(parts, owner)
  {
    forall i, k :: 0 <= i < |parts| && k in parts[i].lock.keys ==>
                     k in AllKeys(parts) && ReadFor(parts, owner, Source(parts, k)) == Str("1" + NewRow(At(parts[i].unlock.input, k)))
  }

  lemma SameAfterFlag(a: string, b: string)
    requires "1" + a == "1" + b
    ensures a == b
  {
    assert ("1" + a)[1..] == a && ("1" + b)[1..] == b;
  }

  lemma ReadIsRow(parts: seq<Part>, owner: nat, k: int)
    requires PartsOk(parts, owner) && k in AllKeys(parts)
    ensures ReadFor(parts, owner, k) == Str("1" + RowAtWrite(parts, owner, k))
  {
    hide Executed, RunAll, IsDecomposed, MappedRecordId;
    var p := parts[Home(parts, k)];
    DecomposedAt(p.m, p.s, p.lock, p.others, p.unlock, owner, k);
  }

  lemma WrittenRow(parts: seq<Part>, owner: nat, i: nat, k: int)
    requires PartsOk(parts, owner) && Rotates(parts, owner) && i < |parts| && k in parts[i].lock.keys
    ensures k in AllKeys(parts) && NewRow(At(parts[i].unlock.input, k)) == RowAtWrite(parts, owner, Source(parts, k))
  {
    hide PartOk, NewRow, RowAtWrite, ReadFor, Source;
    assert k in AllKeys(parts);
    ReadIsRow(parts, owner, Source(parts, k));
    SameAfterFlag(NewRow(At(parts[i].unlock.input, k)), RowAtWrite(parts, owner, Source(parts, k)));
  }

  // Lock and read on every shard, then write back rotated: whatever others do
  // meanwhile, each record gets the row that the record of the key before it has
  // when it is written, is free again, and nothing else is touched.
  lemma DecomposedRotates(parts: seq<Part>, owner: nat, i: nat)
    requires PartsOk(parts, owner) && Rotates(parts, owner) && i < |parts|
    ensures forall k :: k in parts[i].lock.keys ==>
                          && k in AllKeys(parts) && parts[i].m.num > 0 && MappedRecordId(parts[i].m, k) < |parts[i].s.rows|
                          && RecordAt(AfterWrite(parts[i], owner), MappedRecordId(parts[i].m, k))
                             == Record(RowAtWrite(parts, owner, Source(parts, k)), NO_OWNER)
    ensures parts[i].m.num > 0
    ensures forall id :: 0 <= id < |parts[i].s.rows| && id !in Ids(parts[i].m, parts[i].lock.keys) ==>
                           RecordAt(AfterWrite(parts[i], owner), id) == RecordAt(AtWrite(parts[i], owner), id)
  {
    hide Executed, RunAll, MappedRecordId, NewRow, RowAtWrite, Source, Ids, Rotates, Foreign, Granted, OwnedBy, DistinctRecords;
    var p := parts[i];
    assert PartOk(p, owner);
    DecomposedIsAtomic(p.m, p.s, p.lock, p.others, p.unlock, owner);
    forall k | k in p.lock.keys
      ensures k in AllKeys(parts) && RecordAt(AfterWrite(p, owner), MappedRecordId(p.m, k)) == Record(RowAtWrite(parts, owner, Source(parts, k)), NO_OWNER)
    {
      WrittenRow(parts, owner, i, k);
    }
  }

  // One YCSB_SWAP of these rows leaves the same rows on every shard.
  lemma DecomposedSwap(parts: seq<Part>, owner: nat, i: nat, swap: Txn)
    requires PartsOk(parts, owner) && Rotates(parts, owner) && i < |parts|
    requires swap.op == Swap && swap.keys == parts[i].lock.keys
    requires swap.input.Keys == AllKeys(parts) && forall k :: k in AllKeys(parts) ==> swap.input[k] == Str(RowAtWrite(parts, owner, k))
    ensures InTable(parts[i].m, swap.keys, |parts[i].s.rows|)
    ensures Executed(parts[i].m, AtWrite(parts[i], owner), swap).0.rows == AfterWrite(parts[i], owner).rows
  {
    hide Executed, RunAll, MappedRecordId, RowAtWrite, Ids, Rotates, Foreign, Granted, OwnedBy, DistinctRecords, Prev, AtWrite, AfterWrite;
    var p := parts[i];
    assert PartOk(p, owner);
    DecomposedRotates(parts, owner, i);
    var s2 := AtWrite(p, owner);
    var a, b := AfterWrite(p, owner), Executed(p.m, s2, swap).0;
    forall id: nat | id < |s2.rows|
      ensures a.rows[id] == b.rows[id]
    {
      if id in Ids(p.m, swap.keys) {
        var j := IndexOf(p.m, swap.keys, id);
        ExecuteAt(p.m, s2, swap, j);
      } else {
        ExecuteElsewhere(p.m, s2, swap, id);
      }
    }
  }

  // ---------- speculation ----------

  // The records of the keys are saved before they are executed.
  ghost function Saved(m: Shard, s: Store, keys: seq<int>, txnId: nat): (r: Store)
    requires StoreOk(s) && InTable(m, keys, |s.rows|)
    ensures StoreOk(r) && r.rows == s.rows && r.owners == s.owners
  {
    s.(undo := s.undo + map k | k in keys :: Undo(txnId, s.rows[MappedRecordId(m, k)], s.owners[MappedRecordId(m, k)]))
  }

  ghost function SpecExecuted(m: Shard, s: Store, t: Txn, txnId: nat): (result: (Store, Values))
    requires StoreOk(s) && InTable(m, t.keys, |s.rows|)
    ensures StoreOk(result.0) && |result.0.rows| == |s.rows|
  {
    Executed(m, Saved(m, s, t.keys, txnId), t)
  }

  ghost function Committed(s: Store, keys: seq<int>): Store {
    s.(undo := s.undo - KeySet(keys))
  }

  ghost function RolledBack(m: Shard, s: Store, keys: seq<int>): (r: Store)
    requires StoreOk(s) && InTable(m, keys, |s.rows|)
    ensures StoreOk(r) && |r.rows| == |s.rows|
    decreases |keys|
  {
    if keys == [] then s
    else
      var k := keys[0];
      var rest := keys[1..];
      if k !in s.undo then RolledBack(m, s, rest)
      else
        var u := s.undo[k];
        RolledBack(m, PutRecord(s, MappedRecordId(m, k), Record(u.row, u.owner)).(undo := s.undo - {k}), rest)
  }

  datatype Action =
    | Plain(t: Txn)
    | Speculate(t: Txn, txnId: nat)
    | Commit(keys: seq<int>)
    | Rollback(keys: seq<int>)

  ghost function KeysOf(a: Action): seq<int> {
    match a
    case Plain(t) => t.keys
    case Speculate(t, _) => t.keys
    case Commit(keys) => keys
    case Rollback(keys) => keys
  }

  ghost function Act(m: Shard, s: Store, a: Action): (r: Store)
    requires StoreOk(s) && InTable(m, KeysOf(a), |s.rows|)
    ensures StoreOk(r) && |r.rows| == |s.rows|
  {
    match a
    case Plain(t) => Executed(m, s, t).0
    case Speculate(t, txnId) => SpecExecuted(m, s, t, txnId).0
    case Commit(keys) => Committed(s, keys)
    case Rollback(keys) => RolledBack(m, s, keys)
  }

  ghost predicate ActionsInTable(m: Shard, acts: seq<Action>, size: nat) {
    forall i :: 0 <= i < |acts| ==> InTable(m, KeysOf(acts[i]), size)
  }

  ghost function ActAll(m: Shard, s: Store, acts: seq<Action>): (r: Store)
    requires StoreOk(s) && ActionsInTable(m, acts, |s.rows|)
    ensures StoreOk(r) && |r.rows| == |s.rows|
  {
    if acts == [] then s else Act(m, ActAll(m, s, acts[..|acts| - 1]), acts[|acts| - 1])
  }

  // Two stores that differ at most in the records and undo entries of some keys.
  ghost predicate SameOff(m: Shard, a: Store, b: Store, keys: seq<int>)
    requires StoreOk(a) && StoreOk(b) && m.num > 0
  {
    && |a.rows| == |b.rows|
    && (forall id :: 0 <= id < |a.rows| && id !in Ids(m, keys) ==> RecordAt(a, id) == RecordAt(b, id))
    && (forall k :: k !in keys ==> (k in a.undo <==> k in b.undo) && (k in a.undo ==> a.undo[k] == b.undo[k]))
  }

  // Two stores that agree in them.
  ghost predicate SameOn(m: Shard, a: Store, b: Store, keys: seq<int>)
    requires StoreOk(a) && StoreOk(b) && m.num > 0
  {
    && |a.rows| == |b.rows|
    && (forall id :: 0 <= id < |a.rows| && id in Ids(m, keys) ==> RecordAt(a, id) == RecordAt(b, id))
    && (forall k :: k in keys ==> (k in a.undo <==> k in b.undo) && (k in a.undo ==> a.undo[k] == b.undo[k]))
  }

  ghost predicate Apart(m: Shard, keys: seq<int>, others: seq<int>)
    requires m.num > 0
  {
    (forall k :: k in others ==> k !in keys) && Ids(m, keys) !! Ids(m, others)
  }

  lemma ApartKey(m: Shard, keys: seq<int>, others: seq<int>, k: int)
    requires m.num > 0 && Apart(m, keys, others) && k in others
    ensures k !in keys && MappedRecordId(m, k) !in Ids(m, keys)
  {
  }

  // A transaction on other keys does the same, with the same output, in stores that
  // differ only at these keys.
  lemma {:induction false} ExecuteApart(m: Shard, a: Store, b: Store, t: Txn, keys: seq<int>)
    requires StoreOk(a) && StoreOk(b) && m.num > 0 && SameOff(m, a, b, keys)
    requires InTable(m, t.keys, |a.rows|) && Apart(m, keys, t.keys)
    ensures SameOff(m, Executed(m, a, t).0, Executed(m, b, t).0, keys)
    ensures Executed(m, a, t).1 == Executed(m, b, t).1
    decreases |t.keys|
  {
    hide OnKey, MappedRecordId, Ids;
    if t.keys != [] {
      var k := t.keys[|t.keys| - 1];
      var front := t.(keys := t.keys[..|t.keys| - 1]);
      ApartFront(m, keys, t.keys);
      ExecuteApart(m, a, b, front, keys);
      ApartKey(m, keys, t.keys, k);
    }
  }

  lemma ApartFront(m: Shard, keys: seq<int>, others: seq<int>)
    requires m.num > 0 && Apart(m, keys, others) && others != []
    ensures Apart(m, keys, others[..|others| - 1]) && Apart(m, keys, others[1..])
  {
  }

  lemma ExecuteLeaves(m: Shard, a: Store, t: Txn, keys: seq<int>)
    requires StoreOk(a) && m.num > 0 && InTable(m, t.keys, |a.rows|) && Apart(m, keys, t.keys)
    ensures SameOn(m, Executed(m, a, t).0, a, keys)
  {
    hide OnKey, MappedRecordId, Executed, Ids;
    forall id: nat | id < |a.rows| && id in Ids(m, keys)
      ensures RecordAt(Executed(m, a, t).0, id) == RecordAt(a, id)
    {
      ExecuteElsewhere(m, a, t, id);
    }
  }

  lemma SavedApart(m: Shard, a: Store, b: Store, others: seq<int>, txnId: nat, keys: seq<int>)
    requires StoreOk(a) && StoreOk(b) && m.num > 0 && SameOff(m, a, b, keys)
    requires InTable(m, others, |a.rows|) && Apart(m, keys, others)
    ensures SameOff(m, Saved(m, a, others, txnId), Saved(m, b, others, txnId), keys)
    ensures SameOn(m, Saved(m, a, others, txnId), a, keys)
  {
    hide MappedRecordId, Ids, Apart;
    var a', b' := Saved(m, a, others, txnId), Saved(m, b, others, txnId);
    forall k | k in others
      ensures k !in keys && a'.undo[k] == b'.undo[k]
    {
      ApartKey(m, keys, others, k);
      assert RecordAt(a, MappedRecordId(m, k)) == RecordAt(b, MappedRecordId(m, k));
    }
  }

  lemma {:induction false} RollbackApart(m: Shard, a: Store, b: Store, others: seq<int>, keys: seq<int>)
    requires StoreOk(a) && StoreOk(b) && m.num > 0 && SameOff(m, a, b, keys)
    requires InTable(m, others, |a.rows|) && Apart(m, keys, others)
    ensures SameOff(m, RolledBack(m, a, others), RolledBack(m, b, others), keys)
    ensures SameOn(m, RolledBack(m, a, others), a, keys)
    decreases |others|
  {
    hide MappedRecordId, Ids;
    if others != [] {
      var k := others[0];
      ApartKey(m, keys, others, k);
      ApartFront(m, keys, others);
      if k !in a.undo {
        RollbackApart(m, a, b, others[1..], keys);
      } else {
        var u := a.undo[k];
        var id := MappedRecordId(m, k);
        var a1 := PutRecord(a, id, Record(u.row, u.owner)).(undo := a.undo - {k});
        var b1 := PutRecord(b, id, Record(u.row, u.owner)).(undo := b.undo - {k});
        RollbackApart(m, a1, b1, others[1..], keys);
      }
    }
  }

  lemma ActApart(m: Shard, a: Store, b: Store, act: Action, keys: seq<int>)
    requires StoreOk(a) && StoreOk(b) && m.num > 0 && SameOff(m, a, b, keys)
    requires |a.rows| == |b.rows| && InTable(m, KeysOf(act), |a.rows|) && Apart(m, keys, KeysOf(act))
    ensures SameOff(m, Act(m, a, act), Act(m, b, act), keys) && SameOn(m, Act(m, a, act), a, keys)
  {
    hide Executed, Saved, RolledBack, Apart, MappedRecordId, Ids, SameOff, SameOn;
    match act {
      case Plain(t) =>
        ExecuteApart(m, a, b, t, keys);
        ExecuteLeaves(m, a, t, keys);
      case Speculate(t, txnId) =>
        SavedApart(m, a, b, t.keys, txnId, keys);
        ExecuteApart(m, Saved(m, a, t.keys, txnId), Saved(m, b, t.keys, txnId), t, keys);
        ExecuteLeaves(m, Saved(m, a, t.keys, txnId), t, keys);
        SameOnTrans(m, Executed(m, Saved(m, a, t.keys, txnId), t).0, Saved(m, a, t.keys, txnId), a, keys);
      case Commit(others) => CommitApart(m, a, b, others, keys);
      case Rollback(others) => RollbackApart(m, a, b, others, keys);
    }
  }

  lemma CommitApart(m: Shard, a: Store, b: Store, others: seq<int>, keys: seq<int>)
    requires StoreOk(a) && StoreOk(b) && m.num > 0 && SameOff(m, a, b, keys) && Apart(m, keys, others)
    ensures SameOff(m, Committed(a, others), Committed(b, others), keys)
    ensures SameOn(m, Committed(a, others), a, keys)
  {
    hide MappedRecordId, Ids;
  }

  lemma SameOnTrans(m: Shard, a: Store, b: Store, c: Store, keys: seq<int>)
    requires StoreOk(a) && StoreOk(b) && StoreOk(c) && m.num > 0 && SameOn(m, a, b, keys) && SameOn(m, b, c, keys)
    ensures SameOn(m, a, c, keys)
  {
    hide MappedRecordId, Ids;
  }

  lemma {:induction false} ActAllApart(m: Shard, a: Store, b: Store, acts: seq<Action>, keys: seq<int>)
    requires StoreOk(a) && StoreOk(b) && m.num > 0 && SameOff(m, a, b, keys) && ActionsInTable(m, acts, |a.rows|)
    requires forall i :: 0 <= i < |acts| ==> Apart(m, keys, KeysOf(acts[i]))
    ensures |b.rows| == |a.rows|
    ensures SameOff(m, ActAll(m, a, acts), ActAll(m, b, acts), keys) && SameOn(m, ActAll(m, a, acts), a, keys)
  {
    hide Act, Apart, MappedRecordId, Ids, SameOn;
    if acts == [] {
      SameOnSelf(m, a, keys);
    } else {
      var front := acts[..|acts| - 1];
      ActAllApart(m, a, b, front, keys);
      ActApart(m, ActAll(m, a, front), ActAll(m, b, front), acts[|acts| - 1], keys);
      SameOnTrans(m, ActAll(m, a, acts), ActAll(m, a, front), a, keys);
    }
  }

  lemma SameOnSelf(m: Shard, a: Store, keys: seq<int>)
    requires StoreOk(a) && m.num > 0
    ensures SameOn(m, a, a, keys)
  {
  }

  ghost predicate LocalKeys(m: Shard, keys: seq<int>) {
    ShardOk(m) && forall k :: k in keys ==> 0 <= k < MAX_KEY_NUM && IsLocal(m, k)
  }

  // Different keys of this shard never meet in a record, and their records exist.
  lemma LocalKeysApart(m: Shard, keys: seq<int>, others: seq<int>)
    requires LocalKeys(m, keys) && LocalKeys(m, others) && forall k :: k in others ==> k !in keys
    ensures Apart(m, keys, others) && InTable(m, keys, MAX_KEY_NUM)
  {
    hide MappedRecordId, IsLocal;
    forall k | k in keys
      ensures MappedRecordId(m, k) < MAX_KEY_NUM
    {
      LocalKeysInTable(m, k);
    }
    forall k1, k2 | k1 in keys && k2 in others
      ensures MappedRecordId(m, k1) != MappedRecordId(m, k2)
    {
      if MappedRecordId(m, k1) == MappedRecordId(m, k2) {
        MappedInjective(m, k1, k2);
      }
    }
  }

  lemma LocalKeysDistinct(m: Shard, keys: seq<int>)
    requires LocalKeys(m, keys) && forall i, j :: 0 <= i < j < |keys| ==> keys[i] != keys[j]
    ensures DistinctRecords(m, keys)
  {
    hide MappedRecordId, IsLocal;
    forall i, j | 0 <= i < j < |keys|
      ensures MappedRecordId(m, keys[i]) != MappedRecordId(m, keys[j])
    {
      if MappedRecordId(m, keys[i]) == MappedRecordId(m, keys[j]) {
        MappedInjective(m, keys[i], keys[j]);
      }
    }
  }

  // s is s0 in the records of those keys whose undo entry is gone, and the entries
  // left are what s0 would have saved.
  ghost predicate Restorable(m: Shard, s0: Store, s: Store, keys: seq<int>)
    requires StoreOk(s0) && StoreOk(s) && |s0.rows| == |s.rows| && InTable(m, keys, |s.rows|)
  {
    forall k :: k in keys ==>
      if k in s.undo then Record(s.undo[k].row, s.undo[k].owner) == RecordAt(s0, MappedRecordId(m, k))
      else RecordAt(s, MappedRecordId(m, k)) == RecordAt(s0, MappedRecordId(m, k))
  }

  lemma {:induction false} RollbackRestores(m: Shard, s0: Store, s: Store, keys: seq<int>)
    requires StoreOk(s0) && StoreOk(s) && |s0.rows| == |s.rows| && InTable(m, keys, |s.rows|)
    requires Restorable(m, s0, s, keys)
    ensures var r := RolledBack(m, s, keys);
      && (forall id :: 0 <= id < |s.rows| && (id in Ids(m, keys) || RecordAt(s, id) == RecordAt(s0, id)) ==> RecordAt(r, id) == RecordAt(s0, id))
      && (forall id :: 0 <= id < |s.rows| && id !in Ids(m, keys) ==> RecordAt(r, id) == RecordAt(s, id))
      && r.undo == s.undo - KeySet(keys)
    decreases |keys|
  {
    hide MappedRecordId, Ids;
    if keys != [] {
      var k, rest := keys[0], keys[1..];
      assert keys == [k] + rest && k in keys;
      IdsSplit(m, k, rest);
      if k !in s.undo {
        assert RecordAt(s, MappedRecordId(m, k)) == RecordAt(s0, MappedRecordId(m, k));
        RollbackRestores(m, s0, s, rest);
      } else {
        var s1 := PutRecord(s, MappedRecordId(m, k), Record(s.undo[k].row, s.undo[k].owner)).(undo := s.undo - {k});
        assert RecordAt(s1, MappedRecordId(m, k)) == RecordAt(s0, MappedRecordId(m, k));
        assert forall id :: 0 <= id < |s.rows| && id != MappedRecordId(m, k) ==> RecordAt(s1, id) == RecordAt(s, id);
        RollbackRestores(m, s0, s1, rest);
      }
    } else {
      NoIds(m);
    }
  }

  lemma NoIds(m: Shard)
    requires m.num > 0
    ensures Ids(m, []) == {}
  {
  }

  lemma IdsSplit(m: Shard, k: int, rest: seq<int>)
    requires m.num > 0
    ensures Ids(m, [k] + rest) == {MappedRecordId(m, k)} + Ids(m, rest)
  {
  }

  // Speculate, let anything happen to other keys, roll back: the rows and locks are
  // those of the run without the transaction, and so is the undo table, exactly when
  // none of its keys was in the undo table before.
  lemma RollbackLeavesNoTrace(m: Shard, s: Store, t: Txn, txnId: nat, acts: seq<Action>)
    requires StoreOk(s) && InTable(m, t.keys, |s.rows|) && ActionsInTable(m, acts, |s.rows|)
    requires forall i :: 0 <= i < |acts| ==> Apart(m, t.keys, KeysOf(acts[i]))
    ensures var with := RolledBack(m, ActAll(m, SpecExecuted(m, s, t, txnId).0, acts), t.keys);
      var without := ActAll(m, s, acts);
      && with.rows == without.rows && with.owners == without.owners
      && (with == without <==> forall k :: k in t.keys ==> k !in s.undo)
  {
    hide Executed, ActAll, RolledBack, MappedRecordId, Ids, Apart, Saved;
    var s1 := SpecExecuted(m, s, t, txnId).0;
    SpecDiffers(m, s, t, txnId);
    ActAllApart(m, s1, s, acts, t.keys);
    var s2, without := ActAll(m, s1, acts), ActAll(m, s, acts);
    ActAllKeeps(m, s, acts, t.keys);
    SpecRestorable(m, s, s1, s2, t, txnId);
    RollbackRestores(m, s, s2, t.keys);
    var with := RolledBack(m, s2, t.keys);
    forall id: nat | id < |s.rows|
      ensures RecordAt(with, id) == RecordAt(without, id)
    {
    }
    SameRecords(with, without);
    UndoWithout(s2.undo, without.undo, s.undo, t.keys);
  }

  lemma ActAllKeeps(m: Shard, a: Store, acts: seq<Action>, keys: seq<int>)
    requires StoreOk(a) && m.num > 0 && ActionsInTable(m, acts, |a.rows|)
    requires forall i :: 0 <= i < |acts| ==> Apart(m, keys, KeysOf(acts[i]))
    ensures SameOn(m, ActAll(m, a, acts), a, keys)
  {
    ActAllApart(m, a, a, acts, keys);
  }

  lemma SpecDiffers(m: Shard, s: Store, t: Txn, txnId: nat)
    requires StoreOk(s) && InTable(m, t.keys, |s.rows|)
    ensures SameOff(m, SpecExecuted(m, s, t, txnId).0, s, t.keys)
    ensures var s1 := SpecExecuted(m, s, t, txnId).0;
      forall k :: k in t.keys ==> k in s1.undo && Record(s1.undo[k].row, s1.undo[k].owner) == RecordAt(s, MappedRecordId(m, k))
  {
    hide Executed, MappedRecordId, Ids;
    forall id: nat | id < |s.rows| && id !in Ids(m, t.keys)
      ensures RecordAt(SpecExecuted(m, s, t, txnId).0, id) == RecordAt(s, id)
    {
      ExecuteElsewhere(m, Saved(m, s, t.keys, txnId), t, id);
    }
  }

  lemma SpecRestorable(m: Shard, s: Store, s1: Store, s2: Store, t: Txn, txnId: nat)
    requires StoreOk(s) && InTable(m, t.keys, |s.rows|) && StoreOk(s1) && StoreOk(s2) && |s1.rows| == |s2.rows| == |s.rows|
    requires forall k :: k in t.keys ==> k in s1.undo && Record(s1.undo[k].row, s1.undo[k].owner) == RecordAt(s, MappedRecordId(m, k))
    requires SameOn(m, s2, s1, t.keys)
    ensures Restorable(m, s, s2, t.keys)
  {
    hide MappedRecordId, Ids;
  }

  lemma SameRecords(a: Store, b: Store)
    requires StoreOk(a) && StoreOk(b) && |a.rows| == |b.rows|
    requires forall id :: 0 <= id < |a.rows| ==> RecordAt(a, id) == RecordAt(b, id)
    ensures a.rows == b.rows && a.owners == b.owners
  {
    forall id | 0 <= id < |a.rows|
      ensures a.rows[id] == b.rows[id] && a.owners[id] == b.owners[id]
    {
      assert RecordAt(a, id) == RecordAt(b, id);
    }
  }

  lemma UndoWithout(u2: map<int, Undo>, without: map<int, Undo>, before: map<int, Undo>, keys: seq<int>)
    requires forall k :: k !in keys ==> (k in u2 <==> k in without) && (k in u2 ==> u2[k] == without[k])
    requires forall k :: k in keys ==> (k in without <==> k in before)
    ensures (u2 - KeySet(keys)) == without <==> forall k :: k in keys ==> k !in before
  {
    var a := u2 - KeySet(keys);
    if forall k :: k in keys ==> k !in before {
      forall k
        ensures k in a <==> k in without
        ensures k in a ==> a[k] == without[k]
      {
        assert k in keys ==> k !in without;
      }
      assert a.Keys == without.Keys;
    }
  }

  // ---------- the state machine ----------

  // A plain operation on a key whose value must be a text finds one.
  ghost predicate HasText(t: Txn) {
    && (t.op in {Update, Insert, Increment} ==> forall k :: k in t.keys ==> At(t.input, k).Str?)
    && (t.op == Swap ==> forall k :: k in t.input ==> t.input[k].Str?)
  }

  class YCSBStateMachine {
    const shard: Shard
    var kvStore: seq<string>
    var lockOwner: seq<nat>
    var undo: map<int, Undo>

    ghost function View(): Store
      reads this
    {
      Store(kvStore, lockOwner, undo)
    }

    ghost predicate Valid()
      reads this
    {
      |kvStore| == |lockOwner| == MAX_KEY_NUM && ShardOk(shard)
    }

    constructor (shard: Shard)
      requires ShardOk(shard)
      ensures Valid() && this.shard == shard
      ensures View() == Store(seq(MAX_KEY_NUM, _ => ""), seq(MAX_KEY_NUM, _ => NO_OWNER), map[])
    {
      this.shard := shard;
      kvStore, lockOwner, undo := seq(MAX_KEY_NUM, _ => ""), seq(MAX_KEY_NUM, _ => NO_OWNER), map[];
    }

    // The sorted keys of the input and the key before this one.
    method SwapSource(input: Values, key: int) returns (p: int)
      requires key in input
      ensures p == Prev(input.Keys, key)
    {
      p := key;
      var largest := key;
      var found := false;
      var todo := input.Keys;
      while todo != {}
        invariant todo <= input.Keys && p in input && largest in input
        invariant forall q :: q in input && q !in todo ==> q <= largest
        invariant found ==> p < key && forall q :: q in input && q !in todo && q < key ==> q <= p
        invariant !found ==> forall q :: q in input && q !in todo ==> q >= key
        decreases todo
      {
        HasElement(todo);
        var q :| q in todo;
        if largest < q {
          largest := q;
        }
        if q < key && (!found || p < q) {
          p := q;
          found := true;
        }
        todo := todo - {q};
      }
      if !found {
        p := largest;
      }
      assert IsPrev(input.Keys, key, p);
      PrevUnique(input.Keys, key, p);
    }

    // The operation on one record.
    method ApplyOp(op: Op, key: int, input: Values, row: string, owner: nat) returns (r: Record, out: Values)
      requires op in {Update, Insert, Increment} ==> At(input, key).Str?
      ensures (r, out) == OnKey(op, key, input, Record(row, owner))
    {
      hide Prev;
      r, out := Record(row, owner), map[];
      var v := At(input, key);
      match op {
        case Read => out := map[key := Str(row)];
        case Update | Insert =>
          if owner != NO_OWNER {
            out := map[LOCK_CONFLICT_FLAG := Int(1)];
          } else {
            r := Record(v.s, owner);
            out := map[key := Str(v.s)];
          }
        case Swap =>
          if key in input {
            var p := SwapSource(input, key);
            r := Record(Text(input[p]), owner);
            out := map[key := Str(r.row)];
          }
        case LockRead =>
          var o := ParseOwner(v);
          if o != NO_OWNER && (owner == NO_OWNER || owner == o) {
            r := Record(row, o);
            out := map[key := Str("1" + row)];
          } else {
            out := map[key := Str("0")];
          }
        case WriteUnlock =>
          var o := ParseOwner(v);
          if o != NO_OWNER && owner == o {
            r := Record(NewRow(v), NO_OWNER);
            out := map[key := Str("1")];
          } else {
            out := map[key := Str("0")];
          }
        case Unlock =>
          var o := ParseOwner(v);
          if o != NO_OWNER && owner == o {
            r := Record(row, NO_OWNER);
          }
          out := map[key := Str("1")];
        case Increment =>
          if owner != NO_OWNER {
            out := map[LOCK_CONFLICT_FLAG := Int(1)];
          } else {
            var ok, newRow := IncrementField(row, v.s);
            if ok {
              r := Record(newRow, owner);
              out := map[key := Str(newRow)];
            } else {
              out := map[INCREMENT_ERROR_FLAG := Int(1)];
            }
          }
        case NoOp =>
      }
    }

    method Execute(t: Txn) returns (output: Values)
      requires Valid() && InTable(shard, t.keys, MAX_KEY_NUM) && HasText(t)
      modifies this`kvStore, this`lockOwner
      ensures Valid() && (View(), output) == Executed(shard, old(View()), t)
    {
      hide OnKey, MappedRecordId;
      output := map[];
      ghost var s := View();
      for i: nat := 0 to |t.keys|
        invariant Valid() && undo == s.undo
        invariant (View(), output) == Executed(shard, s, t.(keys := t.keys[..i]))
      {
        var id := MappedRecordId(shard, t.keys[i]);
        ghost var next := t.(keys := t.keys[..i + 1]);
        assert next.keys[..i] == t.keys[..i];
        var r, out := ApplyOp(t.op, t.keys[i], t.input, kvStore[id], lockOwner[id]);
        kvStore := kvStore[id := r.row];
        lockOwner := lockOwner[id := r.owner];
        output := output + out;
      }
      assert t.(keys := t.keys[..|t.keys|]) == t;
    }

    method SpecExecute(t: Txn, txnId: nat) returns (output: Values)
      requires Valid() && InTable(shard, t.keys, MAX_KEY_NUM) && HasText(t)
      modifies this
      ensures Valid() && (View(), output) == SpecExecuted(shard, old(View()), t, txnId)
    {
      hide Executed, Saved;
      Save(t.keys, txnId);
      output := Execute(t);
    }

    // The loop that saves the records of the keys.
    method Save(keys: seq<int>, txnId: nat)
      requires Valid() && InTable(shard, keys, MAX_KEY_NUM)
      modifies this`undo
      ensures Valid() && View() == Saved(shard, old(View()), keys, txnId)
    {
      hide MappedRecordId;
      ghost var s := View();
      for i: nat := 0 to |keys|
        invariant undo == Saved(shard, s, keys[..i], txnId).undo
      {
        var id := MappedRecordId(shard, keys[i]);
        SavedMore(shard, s, keys, i, txnId);
        undo := undo[keys[i] := Undo(txnId, kvStore[id], lockOwner[id])];
      }
      assert keys[..|keys|] == keys;
    }

    // The assertion on txnId is the caller's business.
    method CommitExecute(keys: seq<int>)
      requires Valid()
      modifies this`undo
      ensures Valid() && View() == Committed(old(View()), keys)
    {
      for i: nat := 0 to |keys|
        invariant undo == old(undo) - KeySet(keys[..i])
      {
        undo := undo - {keys[i]};
        assert keys[..i + 1] == keys[..i] + [keys[i]];
        assert KeySet(keys[..i + 1]) == KeySet(keys[..i]) + {keys[i]};
      }
      assert keys[..|keys|] == keys;
    }

    method RollbackExecute(keys: seq<int>)
      requires Valid() && InTable(shard, keys, MAX_KEY_NUM)
      modifies this
      ensures Valid() && View() == RolledBack(shard, old(View()), keys)
    {
      hide MappedRecordId;
      ghost var s := View();
      assert keys[0..] == keys;
      for i: nat := 0 to |keys|
        invariant Valid()
        invariant RolledBack(shard, View(), keys[i..]) == RolledBack(shard, s, keys)
      {
        var k := keys[i];
        assert keys[i..][1..] == keys[i + 1..];
        if k in undo {
          var id := MappedRecordId(shard, k);
          kvStore := kvStore[id := undo[k].row];
          lockOwner := lockOwner[id := undo[k].owner];
          undo := undo - {k};
        }
      }
    }
  }

  lemma PrevUnique(keys: set<int>, key: int, p: int)
    requires keys != {} && IsPrev(keys, key, p)
    ensures p == Prev(keys, key)
  {
  }

  lemma SavedMore(m: Shard, s: Store, keys: seq<int>, i: nat, txnId: nat)
    requires StoreOk(s) && InTable(m, keys, |s.rows|) && i < |keys|
    ensures var id := MappedRecordId(m, keys[i]);
      Saved(m, s, keys[..i + 1], txnId).undo == Saved(m, s, keys[..i], txnId).undo[keys[i] := Undo(txnId, s.rows[id], s.owners[id])]
  {
    hide MappedRecordId;
    assert keys[..i + 1] == keys[..i] + [keys[i]];
  }
}
