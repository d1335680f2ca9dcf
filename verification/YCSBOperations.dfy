/**
 StateMachine/YCSBStateMachine.cc: what the operations mean, on rows, locks and
 outputs.  A transaction has one key per record; everything said of the key at
 position i is said of every key.
 */
module YCSBOperations {
  import opened Collections
  import opened YCSBRows
  import opened YCSBStateMachine

  // The transaction's keys exist and never meet in a record; keys are not negative.
  ghost predicate IsClean(m: Shard, s: Store, t: Txn) {
    && StoreOk(s) && InTable(m, t.keys, |s.rows|) && DistinctRecords(m, t.keys)
    && forall k :: k in t.keys ==> k >= 0
  }

  ghost function After(m: Shard, s: Store, t: Txn): (r: Store)
    requires IsClean(m, s, t)
    ensures StoreOk(r) && |r.rows| == |s.rows|
  {
    Executed(m, s, t).0
  }

  ghost function Output(m: Shard, s: Store, t: Txn): Values
    requires IsClean(m, s, t)
  {
    Executed(m, s, t).1
  }

  ghost function IdAt(m: Shard, s: Store, t: Txn, i: nat): (id: nat)
    requires IsClean(m, s, t) && i < |t.keys|
    ensures id < |s.rows| == |s.owners|
  {
    assert t.keys[i] in t.keys;
    MappedRecordId(m, t.keys[i])
  }

  // A flag is raised by a key.
  ghost predicate Raises(m: Shard, s: Store, t: Txn, i: nat, flag: int)
    requires IsClean(m, s, t) && i < |t.keys|
  {
    flag in OnKey(t.op, t.keys[i], t.input, RecordAt(s, IdAt(m, s, t, i))).1
  }

  lemma CleanFront(m: Shard, s: Store, t: Txn)
    requires IsClean(m, s, t) && t.keys != []
    ensures IsClean(m, s, t.(keys := t.keys[..|t.keys| - 1]))
  {
    hide MappedRecordId;
    var front := t.keys[..|t.keys| - 1];
    assert forall k :: k in front ==> k in t.keys;
  }

  // The record of a key, and what the output says for it.
  lemma AtKey(m: Shard, s: Store, t: Txn, i: nat)
    requires IsClean(m, s, t) && i < |t.keys|
    ensures var (r, out) := OnKey(t.op, t.keys[i], t.input, RecordAt(s, IdAt(m, s, t, i)));
      && RecordAt(After(m, s, t), IdAt(m, s, t, i)) == r
      && (t.keys[i] in Output(m, s, t) <==> t.keys[i] in out)
      && (t.keys[i] in out ==> Output(m, s, t)[t.keys[i]] == out[t.keys[i]])
  {
    hide OnKey, MappedRecordId, DistinctRecords, Executed;
    assert t.keys[i] in t.keys;
    ExecuteAt(m, s, t, i);
    OutputAt(m, s, t, i);
  }

  lemma {:induction false} OutputAt(m: Shard, s: Store, t: Txn, i: nat)
    requires IsClean(m, s, t) && i < |t.keys|
    ensures t.keys[i] in Output(m, s, t) <==> t.keys[i] in OnKey(t.op, t.keys[i], t.input, RecordAt(s, IdAt(m, s, t, i))).1
    decreases |t.keys|
  {
    hide OnKey, MappedRecordId;
    var n := |t.keys| - 1;
    var front := t.(keys := t.keys[..n]);
    CleanFront(m, s, t);
    var r := RecordAt(Executed(m, s, front).0, MappedRecordId(m, t.keys[n]));
    OutputKeys(t.op, t.keys[n], t.input, r);
    assert t.keys[i] in t.keys;
    if i < n {
      OutputAt(m, s, front, i);
      assert front.keys[i] == t.keys[i] != t.keys[n];
    } else {
      LastFound(m, s, t);
      OutputOnly(m, s, front, t.keys[n]);
    }
  }

  // Nothing is put out for a key that the transaction does not have.
  lemma {:induction false} OutputOnly(m: Shard, s: Store, t: Txn, k: int)
    requires IsClean(m, s, t) && k >= 0 && k !in t.keys
    ensures k !in Output(m, s, t)
    decreases |t.keys|
  {
    hide OnKey, MappedRecordId;
    if t.keys != [] {
      var n := |t.keys| - 1;
      CleanFront(m, s, t);
      OutputOnly(m, s, t.(keys := t.keys[..n]), k);
      OutputKeys(t.op, t.keys[n], t.input, RecordAt(Executed(m, s, t.(keys := t.keys[..n])).0, MappedRecordId(m, t.keys[n])));
      assert t.keys[n] in t.keys;
    }
  }

  // A flag is put out exactly if some key raises it.
  lemma {:induction false} FlagAt(m: Shard, s: Store, t: Txn, flag: int)
    requires IsClean(m, s, t) && flag < 0
    ensures flag in Output(m, s, t) <==> exists i :: 0 <= i < |t.keys| && Raises(m, s, t, i, flag)
    decreases |t.keys|
  {
    hide OnKey, MappedRecordId, DistinctRecords;
    if t.keys != [] {
      var n := |t.keys| - 1;
      var front := t.(keys := t.keys[..n]);
      CleanFront(m, s, t);
      FlagAt(m, s, front, flag);
      LastFound(m, s, t);
      forall i | 0 <= i < n
        ensures Raises(m, s, t, i, flag) <==> Raises(m, s, front, i, flag)
      {
        assert front.keys[i] == t.keys[i];
      }
      assert flag in Output(m, s, t) <==> flag in Output(m, s, front) || Raises(m, s, t, n, flag);
    }
  }

  // The last key finds its record as it was.
  lemma LastFound(m: Shard, s: Store, t: Txn)
    requires IsClean(m, s, t) && t.keys != []
    ensures var n: nat := |t.keys| - 1; var front := t.(keys := t.keys[..n]);
      && InTable(m, front.keys, |s.rows|)
      && RecordAt(Executed(m, s, front).0, IdAt(m, s, t, n)) == RecordAt(s, IdAt(m, s, t, n))
  {
    hide OnKey, MappedRecordId, Executed;
    var n := |t.keys| - 1;
    var front := t.(keys := t.keys[..n]);
    CleanFront(m, s, t);
    ExecuteElsewhere(m, s, front, MappedRecordId(m, t.keys[n]));
  }

  // ---------- the operations ----------

  // No transaction touches the record of a key it does not have.
  lemma OthersKept(m: Shard, s: Store, t: Txn, id: nat)
    requires IsClean(m, s, t) && id < |s.rows| && forall i :: 0 <= i < |t.keys| ==> IdAt(m, s, t, i) != id
    ensures After(m, s, t).rows[id] == s.rows[id] && After(m, s, t).owners[id] == s.owners[id]
  {
    hide OnKey, Executed;
    IdFound(m, s, t, id);
    ExecuteElsewhere(m, s, t, id);
    assert RecordAt(After(m, s, t), id) == RecordAt(s, id);
  }

  lemma IdFound(m: Shard, s: Store, t: Txn, id: nat)
    requires IsClean(m, s, t)
    ensures id in Ids(m, t.keys) ==> exists i :: 0 <= i < |t.keys| && IdAt(m, s, t, i) == id
  {
    if id in Ids(m, t.keys) {
      var i := IndexOf(m, t.keys, id);
      assert IdAt(m, s, t, i) == id;
    }
  }

  lemma RecordIs(s: Store, id: nat, row: string, owner: nat)
    requires id < |s.rows| == |s.owners| && RecordAt(s, id) == Record(row, owner)
    ensures s.rows[id] == row && s.owners[id] == owner
  {
  }

  // A read puts out the row, locked or not, and changes nothing.
  lemma ReadReturns(m: Shard, s: Store, t: Txn, i: nat)
    requires IsClean(m, s, t) && i < |t.keys| && t.op == Read
    ensures var id := IdAt(m, s, t, i); var s' := After(m, s, t);
      && s'.rows[id] == s.rows[id] && s'.owners[id] == s.owners[id]
      && t.keys[i] in Output(m, s, t) && Output(m, s, t)[t.keys[i]] == Str(s.rows[id])
  {
    hide Executed, MappedRecordId, DistinctRecords;
    AtKey(m, s, t, i);
    RecordIs(After(m, s, t), IdAt(m, s, t, i), s.rows[IdAt(m, s, t, i)], s.owners[IdAt(m, s, t, i)]);
  }

  lemma OnWrite(op: Op, key: int, input: Values, r: Record, text: string)
    requires op in {Update, Insert} && At(input, key) == Str(text) && key >= 0
    ensures var (r', out) := OnKey(op, key, input, r);
      if r.owner == NO_OWNER then r' == Record(text, r.owner) && out == map[key := Str(text)] else r' == r && key !in out
  {
  }

  // A write of a free record stores and puts out the text; of a locked one it changes
  // nothing and puts out nothing for the key.
  lemma WriteStores(m: Shard, s: Store, t: Txn, i: nat, text: string)
    requires IsClean(m, s, t) && i < |t.keys| && t.op in {Update, Insert} && At(t.input, t.keys[i]) == Str(text)
    ensures var id := IdAt(m, s, t, i); var s' := After(m, s, t); var out := Output(m, s, t);
      && s'.owners[id] == s.owners[id]
      && if s.owners[id] == NO_OWNER then s'.rows[id] == text && t.keys[i] in out && out[t.keys[i]] == Str(text)
         else s'.rows[id] == s.rows[id] && t.keys[i] !in out
  {
    hide Executed, MappedRecordId, DistinctRecords, OnKey;
    AtKey(m, s, t, i);
    var id := IdAt(m, s, t, i);
    assert t.keys[i] in t.keys;
    OnWrite(t.op, t.keys[i], t.input, RecordAt(s, id), text);
    RecordIs(After(m, s, t), id, if s.owners[id] == NO_OWNER then text else s.rows[id], s.owners[id]);
  }

  // So a read right after the write puts out the text.
  lemma ReadAfterWrite(m: Shard, s: Store, t: Txn, i: nat, text: string)
    requires IsClean(m, s, t) && i < |t.keys| && t.op in {Update, Insert} && At(t.input, t.keys[i]) == Str(text)
    requires s.owners[IdAt(m, s, t, i)] == NO_OWNER
    ensures IsClean(m, After(m, s, t), t.(op := Read))
    ensures var out := Output(m, After(m, s, t), t.(op := Read)); t.keys[i] in out && out[t.keys[i]] == Str(text)
  {
    hide OnKey, Executed, MappedRecordId, DistinctRecords;
    WriteStores(m, s, t, i, text);
    var read := t.(op := Read);
    assert read.keys == t.keys;
    assert IdAt(m, After(m, s, t), read, i) == IdAt(m, s, t, i);
    ReadReturns(m, After(m, s, t), read, i);
  }

  // Writes and increments report a conflict exactly if one of the records is locked.
  lemma ConflictIffLocked(m: Shard, s: Store, t: Txn)
    requires IsClean(m, s, t) && t.op in {Update, Insert, Increment}
    ensures LOCK_CONFLICT_FLAG in Output(m, s, t) <==> exists i :: 0 <= i < |t.keys| && s.owners[IdAt(m, s, t, i)] != NO_OWNER
  {
    hide Executed, MappedRecordId, DistinctRecords;
    FlagAt(m, s, t, LOCK_CONFLICT_FLAG);
    forall i | 0 <= i < |t.keys|
      ensures Raises(m, s, t, i, LOCK_CONFLICT_FLAG) <==> s.owners[IdAt(m, s, t, i)] != NO_OWNER
    {
      assert t.keys[i] in t.keys;
    }
  }

  lemma FlagOf(op: Op, key: int, input: Values, r: Record, flag: int)
    requires key >= 0 && flag < 0
    ensures flag in OnKey(op, key, input, r).1 ==>
              (flag == LOCK_CONFLICT_FLAG && op in {Update, Insert, Increment} && r.owner != NO_OWNER)
              || (flag == INCREMENT_ERROR_FLAG && op == Increment)
  {
  }

  // No other operation does, and none but an increment reports an increment error.
  lemma NoOtherFlags(m: Shard, s: Store, t: Txn, flag: int)
    requires IsClean(m, s, t) && flag < 0
    requires flag == LOCK_CONFLICT_FLAG ==> t.op !in {Update, Insert, Increment}
    requires flag == INCREMENT_ERROR_FLAG ==> t.op != Increment
    ensures flag !in Output(m, s, t)
  {
    hide Executed, MappedRecordId, DistinctRecords, OnKey, IdAt;
    FlagAt(m, s, t, flag);
    forall i | 0 <= i < |t.keys|
      ensures !Raises(m, s, t, i, flag)
    {
      assert t.keys[i] in t.keys;
      FlagOf(t.op, t.keys[i], t.input, RecordAt(s, IdAt(m, s, t, i)), flag);
    }
  }

  // The owner named in a request, if it is a text that names one.
  ghost predicate Names(v: Value, owner: nat) {
    owner != NO_OWNER && v.Str? && OwnerOf(v.s) == owner
  }

  // A lock is granted exactly to a named owner who finds the record free or his own.
  // Granted or not, the row stays; it is put out only if granted.
  lemma LockGranted(m: Shard, s: Store, t: Txn, i: nat)
    requires IsClean(m, s, t) && i < |t.keys| && t.op == LockRead
    ensures var id := IdAt(m, s, t, i); var s' := After(m, s, t); var out := Output(m, s, t);
      && s'.rows[id] == s.rows[id] && t.keys[i] in out
      && (forall owner :: Names(At(t.input, t.keys[i]), owner) && s.owners[id] in {NO_OWNER, owner} ==>
            s'.owners[id] == owner && out[t.keys[i]] == Str("1" + s.rows[id]))
      && ((forall owner :: Names(At(t.input, t.keys[i]), owner) ==> s.owners[id] !in {NO_OWNER, owner}) ==>
            s'.owners[id] == s.owners[id] && out[t.keys[i]] == Str("0"))
  {
    hide Executed, MappedRecordId, DistinctRecords, OwnerOf;
    AtKey(m, s, t, i);
    var id := IdAt(m, s, t, i);
    var owner := ParseOwner(At(t.input, t.keys[i]));
    assert owner != NO_OWNER ==> Names(At(t.input, t.keys[i]), owner);
    assert RecordAt(After(m, s, t), id).row == s.rows[id];
  }

  // The owner's unlocking write stores the row and frees the record; anyone else's
  // changes nothing and is refused.
  lemma WriteUnlockStores(m: Shard, s: Store, t: Txn, i: nat)
    requires IsClean(m, s, t) && i < |t.keys| && t.op == WriteUnlock
    ensures var id := IdAt(m, s, t, i); var s' := After(m, s, t); var out := Output(m, s, t); var v := At(t.input, t.keys[i]);
      && t.keys[i] in out
      && if Names(v, s.owners[id]) then s'.rows[id] == RowOf(v.s) && s'.owners[id] == NO_OWNER && out[t.keys[i]] == Str("1")
         else s'.rows[id] == s.rows[id] && s'.owners[id] == s.owners[id] && out[t.keys[i]] == Str("0")
  {
    hide Executed, MappedRecordId, DistinctRecords, OwnerOf, RowOf;
    AtKey(m, s, t, i);
    var id := IdAt(m, s, t, i);
    assert RecordAt(After(m, s, t), id) == Record(After(m, s, t).rows[id], After(m, s, t).owners[id]);
  }

  // The owner's unlock frees the record and keeps the row; anyone else's changes
  // nothing.  Both are acknowledged.
  lemma UnlockFrees(m: Shard, s: Store, t: Txn, i: nat)
    requires IsClean(m, s, t) && i < |t.keys| && t.op == Unlock
    ensures var id := IdAt(m, s, t, i); var s' := After(m, s, t); var out := Output(m, s, t);
      && s'.rows[id] == s.rows[id] && t.keys[i] in out && out[t.keys[i]] == Str("1")
      && s'.owners[id] == if Names(At(t.input, t.keys[i]), s.owners[id]) then NO_OWNER else s.owners[id]
  {
    hide Executed, MappedRecordId, DistinctRecords, OwnerOf;
    AtKey(m, s, t, i);
    var id := IdAt(m, s, t, i);
    assert RecordAt(After(m, s, t), id) == Record(After(m, s, t).rows[id], After(m, s, t).owners[id]);
  }

  // An increment of a free record raises the field's number by one, leaves the other
  // fields, and puts out the new row.
  lemma IncrementAddsOne(m: Shard, s: Store, t: Txn, i: nat, field: string)
    requires IsClean(m, s, t) && i < |t.keys| && t.op == Increment && At(t.input, t.keys[i]) == Str(field) && GoodName(field)
    requires var row := s.rows[IdAt(m, s, t, i)]; Number(row, field).Some? && Number(row, field).value < MAX_LONG
    requires s.owners[IdAt(m, s, t, i)] == NO_OWNER
    ensures var id := IdAt(m, s, t, i); var s' := After(m, s, t); var out := Output(m, s, t);
      && Number(s'.rows[id], field) == Some(Number(s.rows[id], field).value + 1)
      && (forall x :: x != field ==> Get(Parse(s'.rows[id]), x) == Get(Parse(s.rows[id]), x))
      && s'.owners[id] == NO_OWNER && t.keys[i] in out && out[t.keys[i]] == Str(s'.rows[id])
  {
    hide Executed, MappedRecordId, DistinctRecords, Number, Get, Parse, Incremented;
    AtKey(m, s, t, i);
    var id := IdAt(m, s, t, i);
    IncrementedOnce(s.rows[id], field);
    assert RecordAt(After(m, s, t), id) == Record(After(m, s, t).rows[id], After(m, s, t).owners[id]);
  }

  lemma IncrementedOnce(row: string, field: string)
    requires GoodName(field) && Number(row, field).Some? && Number(row, field).value < MAX_LONG
    ensures var r := Incremented(row, field);
      && r.Some? && Number(r.value, field) == Some(Number(row, field).value + 1)
      && forall x :: x != field ==> Get(Parse(r.value), x) == Get(Parse(row), x)
  {
    hide Number, Incremented, Get, Parse;
    IncrementsAdd(row, field, 1);
    assert Repeated(row, field, 0) == Some(row);
    assert Repeated(row, field, 1) == Incremented(row, field);
  }

  // Of a locked record, or of a field that is no number, it changes nothing.
  lemma IncrementRefused(m: Shard, s: Store, t: Txn, i: nat, field: string)
    requires IsClean(m, s, t) && i < |t.keys| && t.op == Increment && At(t.input, t.keys[i]) == Str(field)
    requires s.owners[IdAt(m, s, t, i)] != NO_OWNER || Number(s.rows[IdAt(m, s, t, i)], field) == None
    ensures var id := IdAt(m, s, t, i); var s' := After(m, s, t);
      s'.rows[id] == s.rows[id] && s'.owners[id] == s.owners[id] && t.keys[i] !in Output(m, s, t)
    ensures s.owners[IdAt(m, s, t, i)] == NO_OWNER ==> INCREMENT_ERROR_FLAG in Output(m, s, t)
  {
    hide Executed, MappedRecordId, DistinctRecords, Number;
    assert t.keys[i] in t.keys;
    AtKey(m, s, t, i);
    FlagAt(m, s, t, INCREMENT_ERROR_FLAG);
    var id := IdAt(m, s, t, i);
    assert s.owners[id] == NO_OWNER ==> Raises(m, s, t, i, INCREMENT_ERROR_FLAG);
    assert RecordAt(After(m, s, t), id) == Record(After(m, s, t).rows[id], After(m, s, t).owners[id]);
  }

  // A swap gives a key's record the text of the key before it in the input, whether or
  // not the record is locked; a key that is not in the input keeps its row.
  lemma SwapMoves(m: Shard, s: Store, t: Txn, i: nat, p: int, text: string)
    requires IsClean(m, s, t) && i < |t.keys| && t.op == Swap
    requires t.keys[i] in t.input ==> IsPrev(t.input.Keys, t.keys[i], p) && t.input[p] == Str(text)
    ensures var id := IdAt(m, s, t, i); var s' := After(m, s, t); var out := Output(m, s, t);
      && s'.owners[id] == s.owners[id]
      && if t.keys[i] in t.input then s'.rows[id] == text && t.keys[i] in out && out[t.keys[i]] == Str(text)
         else s'.rows[id] == s.rows[id] && t.keys[i] !in out
  {
    hide Executed, MappedRecordId, DistinctRecords, Prev, IsPrev;
    AtKey(m, s, t, i);
    if t.keys[i] in t.input {
      PrevUnique(t.input.Keys, t.keys[i], p);
    }
    var id := IdAt(m, s, t, i);
    assert RecordAt(After(m, s, t), id) == Record(After(m, s, t).rows[id], After(m, s, t).owners[id]);
  }

  // ---------- speculation and commitment ----------

  // The undo table plays no part in executing.
  lemma {:induction false} UndoIsUnread(m: Shard, s: Store, t: Txn, undo: map<int, Undo>)
    requires StoreOk(s) && InTable(m, t.keys, |s.rows|)
    ensures Executed(m, s.(undo := undo), t) == (Executed(m, s, t).0.(undo := undo), Executed(m, s, t).1)
    decreases |t.keys|
  {
    hide OnKey, MappedRecordId;
    if t.keys != [] {
      UndoIsUnread(m, s, t.(keys := t.keys[..|t.keys| - 1]), undo);
    }
  }

  // Speculate, let anything happen to other keys, commit: rows, locks and output are
  // those of a plain execution, and none of the keys has an undo entry any more.
  lemma CommitIsExecution(m: Shard, s: Store, t: Txn, txnId: nat, acts: seq<Action>)
    requires StoreOk(s) && InTable(m, t.keys, |s.rows|) && ActionsInTable(m, acts, |s.rows|)
    requires forall i :: 0 <= i < |acts| ==> Apart(m, t.keys, KeysOf(acts[i]))
    ensures SpecExecuted(m, s, t, txnId).1 == Executed(m, s, t).1
    ensures var with := Committed(ActAll(m, SpecExecuted(m, s, t, txnId).0, acts), t.keys);
      var plain := ActAll(m, Executed(m, s, t).0, acts);
      && with.rows == plain.rows && with.owners == plain.owners
      && (forall k :: k in t.keys ==> k !in with.undo)
      && (forall k :: k !in t.keys ==> (k in with.undo <==> k in plain.undo) && (k in with.undo ==> with.undo[k] == plain.undo[k]))
  {
    hide Executed, ActAll, MappedRecordId, Ids, Apart, Saved;
    var a, b := SpecExecuted(m, s, t, txnId).0, Executed(m, s, t).0;
    SpecIsExecuted(m, s, t, txnId);
    ActAllApart(m, a, b, acts, t.keys);
    ActAllKeeps(m, b, acts, t.keys);
    var a', b' := ActAll(m, a, acts), ActAll(m, b, acts);
    forall id: nat | id < |s.rows|
      ensures RecordAt(a', id) == RecordAt(b', id)
    {
      assert id in Ids(m, t.keys) ==> RecordAt(a', id) == RecordAt(a, id) && RecordAt(b', id) == RecordAt(b, id);
    }
    SameRecords(a', b');
  }

  lemma SpecIsExecuted(m: Shard, s: Store, t: Txn, txnId: nat)
    requires StoreOk(s) && InTable(m, t.keys, |s.rows|)
    ensures var (a, out) := SpecExecuted(m, s, t, txnId);
      && out == Executed(m, s, t).1 && (forall id :: 0 <= id < |s.rows| ==> RecordAt(a, id) == RecordAt(Executed(m, s, t).0, id))
      && SameOff(m, a, Executed(m, s, t).0, t.keys)
  {
    hide Executed, MappedRecordId, Ids;
    var saved := Saved(m, s, t.keys, txnId);
    assert saved == s.(undo := saved.undo);
    UndoIsUnread(m, s, t, saved.undo);
  }
}
