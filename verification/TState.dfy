/** The shared change map of a block and the scoped, revertible views of its transactions. */
module TState {
  import opened Bytes
  import opened StateKeys
  import opened Views

  lemma DropUpdated<V>(m: map<Key, V>, k: Key, v: V)
    ensures m[k := v] - {k} == m - {k}
  {
  }

  lemma MergeOne(base: Changes, pending: Changes, rest: set<Key>, k: Key)
    requires rest <= pending.Keys && k in rest
    ensures (base + (pending - rest))[k := pending[k]] == base + (pending - (rest - {k}))
  {
  }

  lemma CommittedReads(storage: Store, base: Changes, pending: Changes, k: Key)
    ensures ReadThrough(storage, base + pending, k)
            == if k in pending then pending[k] else ReadThrough(storage, base, k)
  {
  }

  /** With the first `i` log entries left to undo, rolling back to `n` gives `restored`. */
  ghost predicate RollsBackTo(v: View, log: seq<OpRecord>, i: nat, n: nat, restored: View) {
    n <= i <= |log| && Views.Rollback(v.(ops := log[..i]), n) == restored
  }

  lemma RollbackOne(v: View, log: seq<OpRecord>, i: nat, n: nat)
    requires n <= i < |log|
    ensures Views.Rollback(v.(ops := log[..i + 1]), n) == Views.Rollback(Revert(v, log[i]).(ops := log[..i]), n)
  {
    assert log[..i + 1][..i] == log[..i];
  }

  class TState {
    var ops: nat
    var changedKeys: Changes

    constructor ()
      ensures ops == 0 && changedKeys == map[]
    {
      ops := 0;
      changedKeys := map[];
    }

    method GetChangedValue(k: Key) returns (v: Value, changed: bool, present: bool)
      ensures changed <==> k in changedKeys
      ensures present <==> k in changedKeys && changedKeys[k].Some?
      ensures present ==> v == changedKeys[k].value
    {
      if k in changedKeys {
        match changedKeys[k]
        case Nothing => return [], true, false;
        case Some(x) => return x, true, true;
      }
      return [], false, false;
    }
  }

  class TStateView {
    const ts: TState
    const scope: Scope
    const storage: Store

    var pendingChangedKeys: Changes
    var ops: seq<OpRecord>
    var allocates: map<Key, nat>
    var writes: map<Key, nat>

    /** The view as a value. */
    ghost function Contents(): View
      reads this
    {
      View(pendingChangedKeys, ops, allocates, writes)
    }

    /** The parent's value at `k`: the shared change if there is one, else the prefetched value. */
    ghost function Parent(k: Key): Maybe<Value>
      reads ts
    {
      ReadThrough(storage, ts.changedKeys, k)
    }

    constructor (ts: TState, scope: Scope, storage: Store)
      ensures this.ts == ts && this.scope == scope && this.storage == storage
      ensures Contents() == EMPTY
    {
      this.ts := ts;
      this.scope := scope;
      this.storage := storage;
      pendingChangedKeys := map[];
      ops := [];
      allocates := map[];
      writes := map[];
    }

    method GetValue(k: Key) returns (v: Value, st: Status)
      ensures (v, st) == Get(Contents(), scope, Parent(k), k)
    {
      if !scope.Grants(k, READ) {
        return [], InvalidKeyOrPermission;
      }
      v, st := Find(k);
    }

    method Find(k: Key) returns (v: Value, st: Status)
      ensures match Visible(Contents(), Parent(k), k)
              case Some(x) => v == x && st == Ok
              case Nothing => v == [] && st == NotFound
    {
      if k in pendingChangedKeys {
        match pendingChangedKeys[k]
        case Nothing => return [], NotFound;
        case Some(x) => return x, Ok;
      }
      var cv, changed, present := ts.GetChangedValue(k);
      if changed {
        if present {
          return cv, Ok;
        }
        return [], NotFound;
      }
      if k in storage {
        return storage[k], Ok;
      }
      return [], NotFound;
    }

    /** Whether the parent already has the value `nval` (or, if `!nexists`, no value) at `k`. */
    method IsUnchanged(k: Key, nval: Value, nexists: bool) returns (same: bool)
      ensures same <==> Parent(k) == if nexists then Some(nval) else Nothing
    {
      var cv, changed, present := ts.GetChangedValue(k);
      if changed {
        return (!present && !nexists) || (present && nexists && cv == nval);
      }
      if k in storage {
        return nexists && storage[k] == nval;
      }
      return !nexists;
    }

    method Insert(k: Key, value: Value) returns (st: Status)
      modifies this
      ensures (Contents(), st) == Views.Insert(old(Contents()), scope, old(Parent(k)), k, value)
    {
      if !scope.Grants(k, WRITE) {
        return InvalidKeyOrPermission;
      }
      if !VerifyValue(k, value) {
        return InvalidKeyValue;
      }
      ghost var v0 := Contents();
      var valueChunks := NumChunks(value).value;
      var unchanged_ := IsUnchanged(k, value, true);
      var past, found := Find(k);
      var record := OpRecord(InsertOp, k, past, Tally(allocates, k), Tally(writes, k));
      if found == Ok {
        if past == value {
          return Ok;
        }
        writes := writes[k := valueChunks];
      } else {
        if !scope.Grants(k, ALLOCATE) {
          return InvalidKeyOrPermission;
        }
        record := record.(kind := CreateOp);
        allocates := allocates[k := MaxChunks(k).value];
        writes := writes[k := valueChunks];
      }
      ops := ops + [record];
      pendingChangedKeys := pendingChangedKeys[k := Some(value)];
      if unchanged_ {
        DropUpdated(v0.allocates, k, MaxChunks(k).value);
        DropUpdated(v0.writes, k, valueChunks);
        DropUpdated(v0.pending, k, Some(value));
        allocates := allocates - {k};
        writes := writes - {k};
        pendingChangedKeys := pendingChangedKeys - {k};
        assert Contents() == Forget(v0.(ops := ops), k);
      }
      return Ok;
    }

    method Remove(k: Key) returns (st: Status)
      modifies this
      ensures (Contents(), st) == Views.Remove(old(Contents()), scope, old(Parent(k)), k)
    {
      if !scope.Grants(k, WRITE) {
        return InvalidKeyOrPermission;
      }
      var past, found := Find(k);
      if found == NotFound {
        return Ok;
      }
      var unchanged_ := IsUnchanged(k, [], false);
      ops := ops + [OpRecord(RemoveOp, k, past, Tally(allocates, k), Tally(writes, k))];
      Erase(k, unchanged_);
      return Ok;
    }

    /** The effect of a removal on the three maps; a key that the parent lacks leaves no trace. */
    method Erase(k: Key, unchanged_: bool)
      modifies this
      ensures Contents() == if k in old(allocates) || unchanged_ then Forget(old(Contents()), k)
                            else old(Contents()).(pending := old(pendingChangedKeys)[k := Nothing],
                                                  writes := old(writes)[k := 0])
    {
      if k in allocates {
        allocates := allocates - {k};
        writes := writes - {k};
        pendingChangedKeys := pendingChangedKeys - {k};
      } else {
        writes := writes[k := 0];
        pendingChangedKeys := pendingChangedKeys[k := Nothing];
      }
      if unchanged_ {
        allocates := allocates - {k};
        writes := writes - {k};
        pendingChangedKeys := pendingChangedKeys - {k};
        assert allocates == old(allocates) - {k};
        assert writes == old(writes) - {k};
        assert pendingChangedKeys == old(pendingChangedKeys) - {k};
      }
    }

    /** Undoes the log from its end down to `restorePoint`. */
    method Rollback(restorePoint: nat)
      requires restorePoint <= |ops|
      modifies this
      ensures Contents() == Views.Rollback(old(Contents()), restorePoint)
    {
      ghost var log := ops;
      ghost var restored := Views.Rollback(Contents(), restorePoint);
      var i := |ops|;
      assert log[..i] == log;
      while i > restorePoint
        invariant restorePoint <= i <= |log|
        invariant ops == log
        invariant RollsBackTo(Contents(), log, i, restorePoint, restored)
      {
        i := i - 1;
        RollbackOne(Contents(), log, i, restorePoint);
        RevertOne(ops[i]);
      }
      ops := ops[..restorePoint];
    }

    method RevertOne(op: OpRecord)
      modifies this`allocates, this`writes, this`pendingChangedKeys
      ensures Contents() == Revert(old(Contents()), op)
    {
      match op.kind
      case CreateOp =>
        allocates := allocates - {op.k};
        if op.pastWrites.Some? {
          writes := writes[op.k := op.pastWrites.value];
          pendingChangedKeys := pendingChangedKeys[op.k := Nothing];
        } else {
          writes := writes - {op.k};
          pendingChangedKeys := pendingChangedKeys - {op.k};
        }
      case InsertOp =>
        if op.pastWrites.Some? {
          writes := writes[op.k := op.pastWrites.value];
          pendingChangedKeys := pendingChangedKeys[op.k := Some(op.pastV)];
        } else {
          writes := writes - {op.k};
          pendingChangedKeys := pendingChangedKeys - {op.k};
        }
      case RemoveOp =>
        if op.pastAllocates.Some? {
          allocates := allocates[op.k := op.pastAllocates.value];
        }
        if op.pastWrites.Some? {
          writes := writes[op.k := op.pastWrites.value];
          pendingChangedKeys := pendingChangedKeys[op.k := Some(op.pastV)];
        } else {
          writes := writes - {op.k};
          pendingChangedKeys := pendingChangedKeys - {op.k};
        }
    }

    /** Publishes the pending changes: the parent then has, at every key, what the view showed. */
    method Commit()
      modifies ts
      ensures ts.changedKeys == old(ts.changedKeys) + pendingChangedKeys
      ensures ts.ops == old(ts.ops) + |ops|
      ensures forall k :: Parent(k) == Visible(Contents(), old(Parent(k)), k)
    {
      var rest := pendingChangedKeys.Keys;
      ghost var base := ts.changedKeys;
      assert pendingChangedKeys - rest == map[];
      while rest != {}
        invariant rest <= pendingChangedKeys.Keys
        invariant ts.ops == old(ts.ops)
        invariant ts.changedKeys == base + (pendingChangedKeys - rest)
        decreases |rest|
      {
        var k :| k in rest;
        MergeOne(base, pendingChangedKeys, rest, k);
        ts.changedKeys := ts.changedKeys[k := pendingChangedKeys[k]];
        rest := rest - {k};
      }
      assert pendingChangedKeys - {} == pendingChangedKeys;
      ts.ops := ts.ops + |ops|;
      forall k
        ensures Parent(k) == Visible(Contents(), old(Parent(k)), k)
      {
        CommittedReads(storage, base, pendingChangedKeys, k);
      }
    }
  }
}
