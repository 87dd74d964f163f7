/**
 * What a transaction view computes, on values: the pending overlay, its undo log and the
 * allocation and write tallies. Every operation concerns one key, so each takes the value
 * `pv` that the parent (shared changes, then prefetched storage) has at that key.
 */
module Views {
  import opened Bytes
  import opened StateKeys

  type Store = map<Key, Value>
  type Changes = map<Key, Maybe<Value>>

  function ReadStore(m: Store, k: Key): (r: Maybe<Value>) {
    if k in m then Some(m[k]) else Nothing
  }

  /** The value at `k` behind a set of changes. */
  function ReadThrough(base: Store, ch: Changes, k: Key): (r: Maybe<Value>) {
    if k in ch then ch[k] else ReadStore(base, k)
  }

  /** The plain map that `base` with the changes `ch` amounts to. */
  function Overlay(base: Store, ch: Changes): (m: Store)
    ensures forall k :: ReadStore(m, k) == ReadThrough(base, ch, k)
  {
    map k | k in base.Keys + ch.Keys && ReadThrough(base, ch, k).Some? :: ReadThrough(base, ch, k).value
  }

  lemma StoresEqual(a: Store, b: Store)
    requires forall k :: ReadStore(a, k) == ReadStore(b, k)
    ensures a == b
  {
    assert forall k :: k in a ==> ReadStore(b, k).Some?;
    assert forall k :: k in b ==> ReadStore(a, k).Some?;
    assert forall k | k in a :: Some(a[k]) == ReadStore(b, k);
  }

  /** Changes on top of changes are the merged changes. */
  lemma OverlayCompose(base: Store, a: Changes, b: Changes)
    ensures Overlay(Overlay(base, a), b) == Overlay(base, a + b)
  {
    StoresEqual(Overlay(Overlay(base, a), b), Overlay(base, a + b));
  }

  datatype OpKind = CreateOp | InsertOp | RemoveOp

  datatype OpRecord = OpRecord(
    kind: OpKind,
    k: Key,
    pastV: Value,
    pastAllocates: Maybe<nat>,
    pastWrites: Maybe<nat>
  )

  datatype View = View(pending: Changes, ops: seq<OpRecord>, allocates: map<Key, nat>, writes: map<Key, nat>)

  const EMPTY := View(map[], [], map[], map[])

  datatype Status = Ok | InvalidKeyOrPermission | InvalidKeyValue | NotFound

  function Tally(m: map<Key, nat>, k: Key): (r: Maybe<nat>) {
    if k in m then Some(m[k]) else Nothing
  }

  /** The value the view shows at `k`. */
  function Visible(v: View, pv: Maybe<Value>, k: Key): (r: Maybe<Value>) {
    if k in v.pending then v.pending[k] else pv
  }

  function Get(v: View, scope: Scope, pv: Maybe<Value>, k: Key): (r: (Value, Status)) {
    if !scope.Grants(k, READ) then ([], InvalidKeyOrPermission)
    else
      match Visible(v, pv, k)
      case Some(x) => (x, Ok)
      case Nothing => ([], NotFound)
  }

  /**
   * What the declared permissions decide, bit by bit: reading needs the lowest bit, writing and removing
   * need the third as well, and creating a key that shows no value the second on top.
   */
  lemma PermissionsDecide(v: View, keys: Keys, pv: Maybe<Value>, k: Key, value: Value)
    ensures var p := if k in keys then keys[k] else 0;
            var (mayRead, mayAllocate, mayWrite) := (p & 1 == 1, p & 3 == 3, p & 5 == 5);
            && (Get(v, Limited(keys), pv, k)
                == if !mayRead then ([], InvalidKeyOrPermission)
                   else if Visible(v, pv, k).Some? then (Visible(v, pv, k).value, Ok) else ([], NotFound))
            && (Insert(v, Limited(keys), pv, k, value).1
                == if !mayWrite then InvalidKeyOrPermission
                   else if !VerifyValue(k, value) then InvalidKeyValue
                   else if Visible(v, pv, k).Some? || mayAllocate then Ok else InvalidKeyOrPermission)
            && (Remove(v, Limited(keys), pv, k).1 == if mayWrite then Ok else InvalidKeyOrPermission)
  {
    HasBits(PermissionOf(keys, k));
  }

  /** The log entry for an operation on `k`, before it takes effect. */
  function Record(v: View, kind: OpKind, pv: Maybe<Value>, k: Key): (r: OpRecord) {
    var past := Visible(v, pv, k);
    OpRecord(kind, k, if past.Some? then past.value else [], Tally(v.allocates, k), Tally(v.writes, k))
  }

  /** The view with every trace of `k` dropped from the three maps. */
  function Forget(v: View, k: Key): (r: View) {
    v.(pending := v.pending - {k}, allocates := v.allocates - {k}, writes := v.writes - {k})
  }

  function Insert(v: View, scope: Scope, pv: Maybe<Value>, k: Key, value: Value): (r: (View, Status)) {
    if !scope.Grants(k, WRITE) then (v, InvalidKeyOrPermission)
    else if !VerifyValue(k, value) then (v, InvalidKeyValue)
    else
      var past := Visible(v, pv, k);
      if past == Some(value) then (v, Ok)
      else if past.Nothing? && !scope.Grants(k, ALLOCATE) then (v, InvalidKeyOrPermission)
      else
        var logged := v.(ops := v.ops + [Record(v, if past.Some? then InsertOp else CreateOp, pv, k)]);
        if pv == Some(value) then (Forget(logged, k), Ok)
        else
          (logged.(pending := v.pending[k := Some(value)],
                   writes := v.writes[k := NumChunks(value).value],
                   allocates := if past.Some? then v.allocates else v.allocates[k := MaxChunks(k).value]), Ok)
  }

  function Remove(v: View, scope: Scope, pv: Maybe<Value>, k: Key): (r: (View, Status)) {
    if !scope.Grants(k, WRITE) then (v, InvalidKeyOrPermission)
    else if Visible(v, pv, k).Nothing? then (v, Ok)
    else
      var logged := v.(ops := v.ops + [Record(v, RemoveOp, pv, k)]);
      if k in v.allocates || pv.Nothing? then (Forget(logged, k), Ok)
      else (logged.(pending := v.pending[k := Nothing], writes := v.writes[k := 0]), Ok)
  }

  /** Takes back the effect of one logged operation on the three maps. */
  function Revert(v: View, op: OpRecord): (r: View)
    ensures r.ops == v.ops
  {
    var marked := v.(allocates := match op.kind
                                  case CreateOp => v.allocates - {op.k}
                                  case InsertOp => v.allocates
                                  case RemoveOp =>
                                    if op.pastAllocates.Some? then v.allocates[op.k := op.pastAllocates.value]
                                    else v.allocates);
    match op.pastWrites
    case Some(w) =>
      marked.(writes := v.writes[op.k := w],
              pending := v.pending[op.k := if op.kind.CreateOp? then Nothing else Some(op.pastV)])
    case Nothing =>
      marked.(writes := v.writes - {op.k}, pending := v.pending - {op.k})
  }

  /** Undoes the last logged operation. */
  function Undo(v: View): (r: View)
    requires v.ops != []
    ensures |r.ops| == |v.ops| - 1
  {
    Revert(v.(ops := v.ops[..|v.ops| - 1]), v.ops[|v.ops| - 1])
  }

  function Rollback(v: View, restorePoint: nat): (r: View)
    requires restorePoint <= |v.ops|
    ensures |r.ops| == restorePoint
    decreases |v.ops|
  {
    if |v.ops| == restorePoint then v else Rollback(Undo(v), restorePoint)
  }

  // ---------------------------------------------------------------------------------------------
  // Rollback exactness
  // ---------------------------------------------------------------------------------------------

  /** A key is tallied as written exactly while a change to it is pending. */
  predicate Tracked(v: View) {
    v.writes.Keys == v.pending.Keys
  }

  /** Equal in everything but the allocation tally. */
  predicate Same(a: View, b: View) {
    a.pending == b.pending && a.writes == b.writes && a.ops == b.ops
  }

  datatype Command = DoInsert(k: Key, value: Value) | DoRemove(k: Key) | DoRollback(n: nat)

  /** One command of a history, against a parent that does not change underneath. */
  function Perform(v: View, scope: Scope, parent: Store, c: Command): (r: View) {
    match c
    case DoInsert(k, value) => Insert(v, scope, ReadStore(parent, k), k, value).0
    case DoRemove(k) => Remove(v, scope, ReadStore(parent, k), k).0
    case DoRollback(n) => if n <= |v.ops| then Rollback(v, n) else v
  }

  function PerformAll(v: View, scope: Scope, parent: Store, cs: seq<Command>): (r: View)
    decreases |cs|
  {
    if cs == [] then v else Perform(PerformAll(v, scope, parent, cs[..|cs| - 1]), scope, parent, cs[|cs| - 1])
  }

  lemma InsertLogs(v: View, scope: Scope, pv: Maybe<Value>, k: Key, value: Value)
    ensures var r := Insert(v, scope, pv, k, value).0;
            r == v || |r.ops| == |v.ops| + 1
    ensures var r := Insert(v, scope, pv, k, value).0;
            r != v ==> r.ops[..|v.ops|] == v.ops
  {
  }

  /** Undoing an insertion restores the pending changes, the write tally and the log. */
  lemma UndoInsert(v: View, scope: Scope, pv: Maybe<Value>, k: Key, value: Value)
    requires Tracked(v)
    ensures var r := Insert(v, scope, pv, k, value).0;
            Tracked(r) && (r == v || (|r.ops| == |v.ops| + 1 && Same(Undo(r), v)))
  {
    hide VerifyValue, NumChunks, MaxChunks;
    var r := Insert(v, scope, pv, k, value).0;
    if r != v {
      InsertLogs(v, scope, pv, k, value);
      UndoneChange(v, r, Record(v, if Visible(v, pv, k).Some? then InsertOp else CreateOp, pv, k));
    }
  }

  /** Undoing a record made before a change to its key puts the key back. */
  lemma UndoneChange(v: View, r: View, op: OpRecord)
    requires Tracked(v) && r.ops == v.ops + [op]
    requires op.pastWrites == Tally(v.writes, op.k)
    requires op.k in v.pending ==> v.pending[op.k] == if op.kind.CreateOp? then Nothing else Some(op.pastV)
    requires r.pending - {op.k} == v.pending - {op.k} && r.writes - {op.k} == v.writes - {op.k}
    ensures Same(Undo(r), v)
  {
    assert r.ops[..|r.ops| - 1] == v.ops;
    var u := Undo(r);
    forall k
      ensures k in u.pending <==> k in v.pending
      ensures k in v.pending ==> u.pending[k] == v.pending[k]
    {
      assert k != op.k ==> (k in r.pending <==> k in r.pending - {op.k});
      assert k != op.k ==> (k in v.pending <==> k in v.pending - {op.k});
      assert k != op.k && k in v.pending ==> (r.pending - {op.k})[k] == (v.pending - {op.k})[k];
    }
    forall k
      ensures k in u.writes <==> k in v.writes
      ensures k in v.writes ==> u.writes[k] == v.writes[k]
    {
      assert k != op.k ==> (k in r.writes <==> k in r.writes - {op.k}) && (k in v.writes <==> k in v.writes - {op.k});
      assert k != op.k && k in v.writes ==> (r.writes - {op.k})[k] == (v.writes - {op.k})[k];
    }
    assert u.pending == v.pending && u.writes == v.writes;
  }

  /** Undoing a removal restores the pending changes, the write tally and the log. */
  lemma UndoRemove(v: View, scope: Scope, pv: Maybe<Value>, k: Key)
    requires Tracked(v)
    ensures var r := Remove(v, scope, pv, k).0;
            Tracked(r) && (r == v || (|r.ops| == |v.ops| + 1 && Same(Undo(r), v)))
  {
    var r := Remove(v, scope, pv, k).0;
    if r != v {
      UndoneChange(v, r, Record(v, RemoveOp, pv, k));
    }
  }

  /** The allocation tally never influences what a rollback restores. */
  lemma {:induction false} RollbackCongruent(a: View, b: View, n: nat)
    requires Same(a, b) && n <= |a.ops|
    ensures Same(Rollback(a, n), Rollback(b, n))
    decreases |a.ops|
  {
    if |a.ops| > n {
      RollbackCongruent(Undo(a), Undo(b), n);
    }
  }

  lemma {:induction false} RollbackTracked(v: View, n: nat)
    requires Tracked(v) && n <= |v.ops|
    ensures Tracked(Rollback(v, n))
    ensures Rollback(v, n).ops == v.ops[..n]
    decreases |v.ops|
  {
    if |v.ops| > n {
      RollbackTracked(Undo(v), n);
      assert v.ops[..|v.ops| - 1][..n] == v.ops[..n];
    } else {
      assert v.ops[..n] == v.ops;
    }
  }

  lemma {:induction false} RollbackTwice(v: View, m: nat, n: nat)
    requires n <= m <= |v.ops|
    ensures Rollback(Rollback(v, m), n) == Rollback(v, n)
    decreases |v.ops|
  {
    if |v.ops| > m {
      RollbackTwice(Undo(v), m, n);
    }
  }

  /** One more command past a restore point never changes what rolling back to it gives. */
  lemma PerformKeepsPast(v: View, scope: Scope, parent: Store, c: Command, n: nat)
    requires Tracked(v) && n <= |v.ops|
    requires c.DoRollback? ==> n <= c.n
    ensures var r := Perform(v, scope, parent, c);
            Tracked(r) && n <= |r.ops| && Same(Rollback(r, n), Rollback(v, n))
  {
    var r := Perform(v, scope, parent, c);
    match c
    case DoInsert(k, value) =>
      UndoInsert(v, scope, ReadStore(parent, k), k, value);
      if r != v {
        RollbackCongruent(Undo(r), v, n);
      }
    case DoRemove(k) =>
      UndoRemove(v, scope, ReadStore(parent, k), k);
      if r != v {
        RollbackCongruent(Undo(r), v, n);
      }
    case DoRollback(m) =>
      if m <= |v.ops| {
        RollbackTracked(v, m);
        RollbackTwice(v, m, n);
      }
  }

  /** The history undoes nothing that precedes the log position `n`. */
  predicate StaysPast(cs: seq<Command>, n: nat) {
    forall i | 0 <= i < |cs| :: cs[i].DoRollback? ==> n <= cs[i].n
  }

  /**
   * Rollback exactness: after any history of insertions, removals and inner rollbacks, rolling back
   * to a saved log position restores the pending changes, the write tally and the log exactly.
   */
  lemma {:induction false} RollbackExact(v: View, scope: Scope, parent: Store, cs: seq<Command>)
    requires Tracked(v)
    requires StaysPast(cs, |v.ops|)
    ensures var r := PerformAll(v, scope, parent, cs);
            Tracked(r) && |v.ops| <= |r.ops| && Same(Rollback(r, |v.ops|), v)
    decreases |cs|
  {
    if cs != [] {
      var most := cs[..|cs| - 1];
      assert forall i | 0 <= i < |most| :: most[i] == cs[i];
      RollbackExact(v, scope, parent, most);
      PerformKeepsPast(PerformAll(v, scope, parent, most), scope, parent, cs[|cs| - 1], |v.ops|);
    }
  }
}
