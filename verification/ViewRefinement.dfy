/**
 * The overlay against a plain map, and what a rollback does to the allocation tally. Two corners of
 * the code show here: removing a key that was re-created in the same view re-exposes the parent's
 * value, and undoing an insertion does not bring back the allocation mark it dropped. For each there
 * is an input that fails and the exact condition under which the property holds.
 */
module ViewRefinement {
  import opened Bytes
  import opened StateKeys
  import opened Views

  // ---------------------------------------------------------------------------------------------
  // The plain map
  // ---------------------------------------------------------------------------------------------

  /**
   * The reference: the plain map after each effective operation, oldest first. An operation that the
   * view refuses, or that leaves the map as it is, adds nothing; a rollback truncates.
   */
  function PlainPerform(hist: seq<Store>, c: Command, st: Status): (r: seq<Store>)
    requires hist != []
    ensures r != []
  {
    var m := hist[|hist| - 1];
    match c
    case DoInsert(k, value) => if st != Ok || ReadStore(m, k) == Some(value) then hist else hist + [m[k := value]]
    case DoRemove(k) => if st != Ok || k !in m then hist else hist + [m - {k}]
    case DoRollback(n) => if n + 1 <= |hist| then hist[..n + 1] else hist
  }

  function StatusOf(v: View, scope: Scope, parent: Store, c: Command): (r: Status) {
    match c
    case DoInsert(k, value) => Insert(v, scope, ReadStore(parent, k), k, value).1
    case DoRemove(k) => Remove(v, scope, ReadStore(parent, k), k).1
    case DoRollback(_) => Ok
  }

  function Content(v: View, parent: Store): (m: Store) {
    Overlay(parent, v.pending)
  }

  /** The view, and every view it can roll back to, shows the plain map of that moment. */
  predicate Refines(v: View, parent: Store, hist: seq<Store>) {
    && |hist| == |v.ops| + 1
    && forall n | 0 <= n <= |v.ops| :: Content(Rollback(v, n), parent) == hist[n]
  }

  /** The command removes a key that this view created although the parent holds it. */
  predicate Reexposes(v: View, scope: Scope, parent: Store, c: Command) {
    && c.DoRemove?
    && scope.Grants(c.k, WRITE)
    && Visible(v, ReadStore(parent, c.k), c.k).Some?
    && c.k in v.allocates
    && c.k in parent
  }

  lemma InsertContent(v: View, scope: Scope, parent: Store, k: Key, value: Value)
    ensures var (r, st) := Insert(v, scope, ReadStore(parent, k), k, value);
            Content(r, parent) == if st == Ok then Content(v, parent)[k := value] else Content(v, parent)
    ensures var (r, st) := Insert(v, scope, ReadStore(parent, k), k, value);
            r == v <==> (st != Ok || ReadStore(Content(v, parent), k) == Some(value))
  {
    var (r, st) := Insert(v, scope, ReadStore(parent, k), k, value);
    if st == Ok {
      StoresEqual(Content(r, parent), Content(v, parent)[k := value]);
    }
  }

  lemma RemoveContent(v: View, scope: Scope, parent: Store, k: Key)
    ensures var (r, st) := Remove(v, scope, ReadStore(parent, k), k);
            (Content(r, parent) == if st == Ok then Content(v, parent) - {k} else Content(v, parent))
            <==> !Reexposes(v, scope, parent, DoRemove(k))
    ensures var (r, st) := Remove(v, scope, ReadStore(parent, k), k);
            r == v <==> (st != Ok || k !in Content(v, parent))
  {
    var (r, st) := Remove(v, scope, ReadStore(parent, k), k);
    if st == Ok {
      assert k in Content(v, parent) <==> Visible(v, ReadStore(parent, k), k).Some?;
      if Reexposes(v, scope, parent, DoRemove(k)) {
        assert ReadStore(Content(r, parent), k).Some?;
        assert k in Content(r, parent);
      } else {
        StoresEqual(Content(r, parent), Content(v, parent) - {k});
      }
    }
  }

  lemma PastContent(v: View, r: View, parent: Store)
    requires |r.ops| == |v.ops| + 1 && Same(Undo(r), v)
    ensures forall n | 0 <= n <= |v.ops| :: Content(Rollback(r, n), parent) == Content(Rollback(v, n), parent)
  {
    forall n | 0 <= n <= |v.ops|
      ensures Content(Rollback(r, n), parent) == Content(Rollback(v, n), parent)
    {
      RollbackCongruent(Undo(r), v, n);
    }
  }

  lemma RefineInsert(v: View, scope: Scope, parent: Store, hist: seq<Store>, k: Key, value: Value)
    requires Tracked(v) && Refines(v, parent, hist)
    ensures Tracked(Perform(v, scope, parent, DoInsert(k, value)))
    ensures var c := DoInsert(k, value);
            Refines(Perform(v, scope, parent, c), parent, PlainPerform(hist, c, StatusOf(v, scope, parent, c)))
            <==> !Reexposes(v, scope, parent, c)
  {
    var r := Perform(v, scope, parent, DoInsert(k, value));
    InsertContent(v, scope, parent, k, value);
    UndoInsert(v, scope, ReadStore(parent, k), k, value);
    hide Views.Insert, VerifyValue, Content;
    assert Rollback(v, |v.ops|) == v;
    assert Rollback(r, |r.ops|) == r;
    if r != v {
      PastContent(v, r, parent);
    }
  }

  lemma RefineRemove(v: View, scope: Scope, parent: Store, hist: seq<Store>, k: Key)
    requires Tracked(v) && Refines(v, parent, hist)
    ensures Tracked(Perform(v, scope, parent, DoRemove(k)))
    ensures var c := DoRemove(k);
            Refines(Perform(v, scope, parent, c), parent, PlainPerform(hist, c, StatusOf(v, scope, parent, c)))
            <==> !Reexposes(v, scope, parent, c)
  {
    var r := Perform(v, scope, parent, DoRemove(k));
    assert Rollback(v, |v.ops|) == v;
    assert Rollback(r, |r.ops|) == r;
    RemoveContent(v, scope, parent, k);
    UndoRemove(v, scope, ReadStore(parent, k), k);
    if r != v {
      PastContent(v, r, parent);
    }
  }

  lemma RefineRollback(v: View, scope: Scope, parent: Store, hist: seq<Store>, m: nat)
    requires Tracked(v) && Refines(v, parent, hist)
    ensures Tracked(Perform(v, scope, parent, DoRollback(m)))
    ensures var c := DoRollback(m);
            Refines(Perform(v, scope, parent, c), parent, PlainPerform(hist, c, StatusOf(v, scope, parent, c)))
            <==> !Reexposes(v, scope, parent, c)
  {
    var r := Perform(v, scope, parent, DoRollback(m));
    var hist' := PlainPerform(hist, DoRollback(m), StatusOf(v, scope, parent, DoRollback(m)));
    assert Rollback(v, |v.ops|) == v;
    if m <= |v.ops| {
      RollbackTracked(v, m);
      forall n | 0 <= n <= m
        ensures Content(Rollback(r, n), parent) == hist'[n]
      {
        RollbackTwice(v, m, n);
      }
    }
  }

  /**
   * One step: the view keeps showing the plain map, now and at every restore point, exactly when the
   * command does not remove a key that the view re-created over the parent's.
   */
  lemma RefineStep(v: View, scope: Scope, parent: Store, hist: seq<Store>, c: Command)
    requires Tracked(v) && Refines(v, parent, hist)
    ensures Tracked(Perform(v, scope, parent, c))
    ensures Refines(Perform(v, scope, parent, c), parent, PlainPerform(hist, c, StatusOf(v, scope, parent, c)))
            <==> !Reexposes(v, scope, parent, c)
  {
    match c
    case DoInsert(k, value) => RefineInsert(v, scope, parent, hist, k, value);
    case DoRemove(k) => RefineRemove(v, scope, parent, hist, k);
    case DoRollback(m) => RefineRollback(v, scope, parent, hist, m);
  }

  /** The plain map tracks the view after every command of the history. */
  predicate AgreesThroughout(v: View, scope: Scope, parent: Store, hist: seq<Store>, cs: seq<Command>)
    requires hist != []
    decreases |cs|
  {
    && Refines(v, parent, hist)
    && (cs != [] ==>
          AgreesThroughout(Perform(v, scope, parent, cs[0]), scope, parent,
                           PlainPerform(hist, cs[0], StatusOf(v, scope, parent, cs[0])), cs[1..]))
  }

  predicate NeverReexposes(v: View, scope: Scope, parent: Store, cs: seq<Command>)
    decreases |cs|
  {
    cs != [] ==>
      && !Reexposes(v, scope, parent, cs[0])
      && NeverReexposes(Perform(v, scope, parent, cs[0]), scope, parent, cs[1..])
  }

  /**
   * Overlay refinement over whole histories, rollbacks included: every read through the view equals
   * the plain map's exactly when no command removes a key that the view re-created over the parent's.
   */
  lemma {:induction false} OverlayRefinesPlainMap(v: View, scope: Scope, parent: Store, hist: seq<Store>,
                                                  cs: seq<Command>)
    requires Tracked(v) && Refines(v, parent, hist)
    ensures AgreesThroughout(v, scope, parent, hist, cs) <==> NeverReexposes(v, scope, parent, cs)
    decreases |cs|
  {
    if cs != [] {
      RefineStep(v, scope, parent, hist, cs[0]);
      var r := Perform(v, scope, parent, cs[0]);
      var hist' := PlainPerform(hist, cs[0], StatusOf(v, scope, parent, cs[0]));
      if Refines(r, parent, hist') {
        OverlayRefinesPlainMap(r, scope, parent, hist', cs[1..]);
      }
    }
  }

  /** Remove, re-create, remove of a key the parent holds: the parent's value is back. */
  lemma ReexposedValue()
    ensures var k: Key := [0, 1];
            var parent: Store := map[k := [7]];
            var v := PerformAll(EMPTY, Complete, parent, [DoRemove(k), DoInsert(k, [8]), DoRemove(k)]);
            Visible(v, ReadStore(parent, k), k) == Some([7])
  {
    var k: Key := [0, 1];
    var parent: Store := map[k := [7]];
    assert k[|k| - 2..] == [0, 1];
    assert [0, 1][..1] == [0];
    assert BigEndian([0]) == 0;
    assert BigEndian([0, 1]) == 1;
    var cs: seq<Command> := [DoRemove(k), DoInsert(k, [8]), DoRemove(k)];
    var v1 := Perform(EMPTY, Complete, parent, cs[0]);
    assert v1.pending == map[k := Nothing];
    var v2 := Perform(v1, Complete, parent, cs[1]);
    assert k in v2.allocates;
    var v3 := Perform(v2, Complete, parent, cs[2]);
    assert k !in v3.pending;
    assert cs[..2][..1] == cs[..1];
    assert cs[..1][..0] == [];
    assert PerformAll(EMPTY, Complete, parent, cs[..1]) == v1;
    assert PerformAll(EMPTY, Complete, parent, cs[..2]) == v2;
  }

  /** A history that never creates a key the parent holds keeps allocation marks off the parent's keys. */
  predicate AllocatesFresh(v: View, parent: Store) {
    v.allocates.Keys !! parent.Keys
  }

  predicate Recreates(v: View, scope: Scope, parent: Store, c: Command) {
    && c.DoInsert?
    && Visible(v, ReadStore(parent, c.k), c.k).Nothing?
    && Insert(v, scope, ReadStore(parent, c.k), c.k, c.value).1 == Ok
    && c.k in parent
  }

  predicate NeverRecreates(v: View, scope: Scope, parent: Store, cs: seq<Command>)
    decreases |cs|
  {
    cs != [] ==>
      && !Recreates(v, scope, parent, cs[0])
      && NeverRecreates(Perform(v, scope, parent, cs[0]), scope, parent, cs[1..])
  }

  /** The logged allocation marks of removals are off the parent's keys too. */
  predicate LogFresh(v: View, parent: Store) {
    forall i | 0 <= i < |v.ops| :: v.ops[i].pastAllocates.Some? ==> v.ops[i].k !in parent
  }

  lemma {:induction false} RollbackFresh(v: View, parent: Store, n: nat)
    requires n <= |v.ops| && AllocatesFresh(v, parent) && LogFresh(v, parent)
    ensures AllocatesFresh(Rollback(v, n), parent) && LogFresh(Rollback(v, n), parent)
    decreases |v.ops|
  {
    if |v.ops| > n {
      RollbackFresh(Undo(v), parent, n);
    }
  }

  /** Never re-creating a key of the parent is enough for the view to be a plain map throughout. */
  lemma {:induction false} FreshAllocationsSuffice(v: View, scope: Scope, parent: Store, cs: seq<Command>)
    requires AllocatesFresh(v, parent) && LogFresh(v, parent)
    requires NeverRecreates(v, scope, parent, cs)
    ensures NeverReexposes(v, scope, parent, cs)
    decreases |cs|
  {
    if cs != [] {
      if cs[0].DoRollback? && cs[0].n <= |v.ops| {
        RollbackFresh(v, parent, cs[0].n);
      }
      FreshAllocationsSuffice(Perform(v, scope, parent, cs[0]), scope, parent, cs[1..]);
    }
  }

  // ---------------------------------------------------------------------------------------------
  // Pending changes are real changes, and a commit publishes exactly the view
  // ---------------------------------------------------------------------------------------------

  /** Every pending entry differs from the parent's value, here and at every restore point. */
  predicate Lean(v: View, parent: Store) {
    forall n | 0 <= n <= |v.ops| ::
      forall k | k in Rollback(v, n).pending :: Rollback(v, n).pending[k] != ReadStore(parent, k)
  }

  /** The pending entries of the view itself, restore points aside. */
  predicate LeanNow(v: View, parent: Store) {
    forall k | k in v.pending :: v.pending[k] != ReadStore(parent, k)
  }

  lemma LeanChange(v: View, scope: Scope, parent: Store, c: Command)
    requires LeanNow(v, parent) && !c.DoRollback?
    ensures LeanNow(Perform(v, scope, parent, c), parent)
  {
    hide VerifyValue, NumChunks, MaxChunks;
  }

  /** One more logged operation, whose undoing gives the view back, keeps every restore point lean. */
  lemma LeanGrows(v: View, r: View, parent: Store)
    requires Lean(v, parent) && LeanNow(r, parent) && |r.ops| == |v.ops| + 1 && Same(Undo(r), v)
    ensures Lean(r, parent)
  {
    forall n | 0 <= n <= |v.ops| ensures Rollback(r, n).pending == Rollback(v, n).pending {
      RollbackCongruent(Undo(r), v, n);
    }
    assert Rollback(r, |r.ops|) == r;
  }

  lemma LeanStep(v: View, scope: Scope, parent: Store, c: Command)
    requires Tracked(v) && Lean(v, parent)
    ensures Tracked(Perform(v, scope, parent, c)) && Lean(Perform(v, scope, parent, c), parent)
  {
    var r := Perform(v, scope, parent, c);
    assert Rollback(v, |v.ops|) == v;
    if c.DoRollback? {
      if c.n <= |v.ops| {
        RollbackTracked(v, c.n);
        forall n | 0 <= n <= c.n ensures Rollback(r, n) == Rollback(v, n) {
          RollbackTwice(v, c.n, n);
        }
      }
    } else {
      LeanChange(v, scope, parent, c);
      hide Views.Insert, Views.Remove, Undo;
      if c.DoInsert? {
        UndoInsert(v, scope, ReadStore(parent, c.k), c.k, c.value);
      } else {
        UndoRemove(v, scope, ReadStore(parent, c.k), c.k);
      }
      if r != v {
        LeanGrows(v, r, parent);
      }
    }
  }

  /** From a fresh view, whatever the history, only keys whose value really changed are pending. */
  lemma {:induction false} OnlyRealChanges(scope: Scope, parent: Store, cs: seq<Command>)
    ensures var v := PerformAll(EMPTY, scope, parent, cs);
            Tracked(v) && Lean(v, parent)
    ensures var v := PerformAll(EMPTY, scope, parent, cs);
            forall k | k in v.pending :: v.pending[k] != ReadStore(parent, k)
    decreases |cs|
  {
    if cs != [] {
      OnlyRealChanges(scope, parent, cs[..|cs| - 1]);
      LeanStep(PerformAll(EMPTY, scope, parent, cs[..|cs| - 1]), scope, parent, cs[|cs| - 1]);
    }
    var v := PerformAll(EMPTY, scope, parent, cs);
    assert Rollback(v, |v.ops|) == v;
  }

  // ---------------------------------------------------------------------------------------------
  // The allocation tally under rollback
  // ---------------------------------------------------------------------------------------------

  /** Allocation marks are only on keys that the view shows. */
  predicate AllocatesVisible(v: View, parent: Store) {
    forall k | k in v.allocates :: Visible(v, ReadStore(parent, k), k).Some?
  }

  /** An insertion that writes a newly allocated key back to the parent's value. */
  predicate ReturnsToParent(v: View, scope: Scope, parent: Store, c: Command) {
    && c.DoInsert?
    && c.k in v.allocates
    && scope.Grants(c.k, WRITE)
    && VerifyValue(c.k, c.value)
    && Visible(v, ReadStore(parent, c.k), c.k) != Some(c.value)
    && ReadStore(parent, c.k) == Some(c.value)
  }

  /** The log from `n` on holds a removal of `k`. */
  predicate Removed(ops: seq<OpRecord>, n: nat, k: Key) {
    exists i :: n <= i < |ops| && ops[i].k == k && ops[i].kind.RemoveOp?
  }

  /**
   * Some insertion of the history writes `k` back to the parent's value while no removal of `k` stands
   * in the log above the saved position.
   */
  predicate LosesMark(k: Key, v: View, scope: Scope, parent: Store, cs: seq<Command>)
    decreases |cs|
  {
    && cs != []
    && var most, c := cs[..|cs| - 1], cs[|cs| - 1];
       var r := PerformAll(v, scope, parent, most);
       || LosesMark(k, v, scope, parent, most)
       || (ReturnsToParent(r, scope, parent, c) && c.k == k && !Removed(r.ops, |v.ops|, k))
  }

  function Kept(v: View, scope: Scope, parent: Store, cs: seq<Command>): (m: map<Key, nat>) {
    map k | k in v.allocates && !LosesMark(k, v, scope, parent, cs) :: v.allocates[k]
  }

  function DropMark(v: View, k: Key): (r: View) {
    v.(allocates := v.allocates - {k})
  }

  /** What one command does to the allocation marks. */
  lemma PerformAllocates(v: View, scope: Scope, parent: Store, c: Command)
    requires AllocatesVisible(v, parent) && !c.DoRollback?
    requires Perform(v, scope, parent, c) != v
    ensures var r := Perform(v, scope, parent, c);
            && r.ops != []
            && var op := r.ops[|r.ops| - 1];
               && op.k == c.k
               && (op.kind.CreateOp? ==> c.k !in v.allocates && r.allocates - {c.k} == v.allocates)
               && (op.kind.InsertOp? ==>
                     r.allocates == if ReturnsToParent(v, scope, parent, c) then v.allocates - {c.k} else v.allocates)
               && (op.kind.RemoveOp? ==>
                   r.allocates == v.allocates - {c.k} && op.pastAllocates == Tally(v.allocates, c.k))
               && (!op.kind.InsertOp? ==> !ReturnsToParent(v, scope, parent, c))
  {
    hide VerifyValue, NumChunks;
  }

  /** Undoing a command gives back the view it was performed on, short of the mark it dropped for the parent's value. */
  lemma UndoMarks(v: View, scope: Scope, parent: Store, c: Command)
    requires Tracked(v) && AllocatesVisible(v, parent) && !c.DoRollback?
    ensures var r := Perform(v, scope, parent, c);
            || (r == v && !ReturnsToParent(v, scope, parent, c))
            || (&& |r.ops| == |v.ops| + 1
                && Undo(r) == if ReturnsToParent(v, scope, parent, c) then DropMark(v, c.k) else v)
  {
    hide Insert, Remove;
    var r := Perform(v, scope, parent, c);
    if c.DoInsert? {
      UndoInsert(v, scope, ReadStore(parent, c.k), c.k, c.value);
    } else {
      UndoRemove(v, scope, ReadStore(parent, c.k), c.k);
    }
    ReturnIsLogged(v, scope, parent, c);
    if r != v {
      PerformAllocates(v, scope, parent, c);
      hide Perform, ReturnsToParent, AllocatesVisible, Undo;
      UndoneMarks(v, r, ReturnsToParent(v, scope, parent, c));
    }
  }

  lemma UndoneMarks(v: View, r: View, returned: bool)
    requires r.ops != [] && Same(Undo(r), v)
    requires var op := r.ops[|r.ops| - 1];
             && (op.kind.CreateOp? ==> op.k !in v.allocates && r.allocates - {op.k} == v.allocates)
             && (op.kind.InsertOp? ==> r.allocates == if returned then v.allocates - {op.k} else v.allocates)
             && (op.kind.RemoveOp? ==>
                 r.allocates == v.allocates - {op.k} && op.pastAllocates == Tally(v.allocates, op.k))
             && (!op.kind.InsertOp? ==> !returned)
    ensures Undo(r) == if returned then DropMark(v, r.ops[|r.ops| - 1].k) else v
  {
    var op := r.ops[|r.ops| - 1];
    if op.k in v.allocates {
      assert (v.allocates - {op.k})[op.k := v.allocates[op.k]] == v.allocates;
    } else {
      assert v.allocates - {op.k} == v.allocates;
    }
  }

  lemma ReturnIsLogged(v: View, scope: Scope, parent: Store, c: Command)
    requires AllocatesVisible(v, parent)
    ensures ReturnsToParent(v, scope, parent, c) ==> |Perform(v, scope, parent, c).ops| == |v.ops| + 1
  {
  }

  /** Undoing this entry settles the mark of `k`, whatever it was. */
  predicate Settles(op: OpRecord, k: Key) {
    op.k == k && (op.kind.CreateOp? || (op.kind.RemoveOp? && op.pastAllocates.Some?))
  }

  predicate Settled(ops: seq<OpRecord>, n: nat, k: Key) {
    exists i :: n <= i < |ops| && Settles(ops[i], k)
  }

  /** A dropped mark is missed after a rollback exactly when nothing undone on the way settles it. */
  lemma {:induction false} RollbackDropped(v: View, k: Key, n: nat)
    requires n <= |v.ops|
    ensures Rollback(DropMark(v, k), n)
            == if Settled(v.ops, n, k) then Rollback(v, n) else DropMark(Rollback(v, n), k)
    decreases |v.ops|
  {
    if |v.ops| > n {
      var op, last := v.ops[|v.ops| - 1], |v.ops| - 1;
      var u := Undo(v);
      assert u.ops == v.ops[..last];
      if Settles(op, k) {
        UndoSettled(v, k);
        assert Settled(v.ops, n, k);
      } else {
        UndoUnsettled(v, k);
        RollbackDropped(u, k, n);
        SettledBefore(v.ops, n, k);
      }
    }
  }

  lemma SettledBefore(ops: seq<OpRecord>, n: nat, k: Key)
    requires n < |ops| && !Settles(ops[|ops| - 1], k)
    ensures Settled(ops, n, k) <==> Settled(ops[..|ops| - 1], n, k)
  {
    var most := ops[..|ops| - 1];
    if Settled(ops, n, k) {
      var i :| n <= i < |ops| && Settles(ops[i], k);
      assert most[i] == ops[i];
    }
    if Settled(most, n, k) {
      var i :| n <= i < |most| && Settles(most[i], k);
      assert most[i] == ops[i];
    }
  }

  lemma UndoSettled(v: View, k: Key)
    requires v.ops != [] && Settles(v.ops[|v.ops| - 1], k)
    ensures Undo(DropMark(v, k)) == Undo(v)
  {
    var op := v.ops[|v.ops| - 1];
    if op.kind.RemoveOp? {
      assert (v.allocates - {k})[k := op.pastAllocates.value] == v.allocates[k := op.pastAllocates.value];
    }
  }

  lemma UndoUnsettled(v: View, k: Key)
    requires v.ops != [] && !Settles(v.ops[|v.ops| - 1], k)
    ensures Undo(DropMark(v, k)) == DropMark(Undo(v), k)
  {
    var op := v.ops[|v.ops| - 1];
    assert v.allocates - {k} - {op.k} == v.allocates - {op.k} - {k};
    if op.k != k && op.pastAllocates.Some? {
      assert (v.allocates - {k})[op.k := op.pastAllocates.value] == v.allocates[op.k := op.pastAllocates.value] - {k};
    }
  }

  /** The log from `n` on holds a removal of `k` that recorded its mark. */
  predicate Recorded(ops: seq<OpRecord>, n: nat, k: Key) {
    exists i :: n <= i < |ops| && ops[i].kind.RemoveOp? && Settles(ops[i], k)
  }

  /** A mark that a rollback brings back was recorded by a removal. */
  lemma {:induction false} BroughtBack(v: View, k: Key, n: nat)
    requires n <= |v.ops| && k in Rollback(v, n).allocates && k !in v.allocates
    ensures Recorded(v.ops, n, k)
    decreases |v.ops|
  {
    var last := |v.ops| - 1;
    var u := Undo(v);
    if k in u.allocates {
      assert v.ops[last].kind.RemoveOp? && Settles(v.ops[last], k);
    } else {
      BroughtBack(u, k, n);
      var i :| n <= i < |u.ops| && u.ops[i].kind.RemoveOp? && Settles(u.ops[i], k);
      assert u.ops[i] == v.ops[i];
    }
  }

  /** Every view above the saved position has its marks on keys that it shows. */
  predicate VisibleAbove(v: View, parent: Store, n: nat) {
    n <= |v.ops| && forall m | n <= m <= |v.ops| :: AllocatesVisible(Rollback(v, m), parent)
  }

  lemma VisibleAboveStep(v: View, scope: Scope, parent: Store, c: Command, n: nat)
    requires Tracked(v) && VisibleAbove(v, parent, n) && (c.DoRollback? ==> n <= c.n)
    ensures var r := Perform(v, scope, parent, c);
            Tracked(r) && VisibleAbove(r, parent, n)
  {
    var r := Perform(v, scope, parent, c);
    PerformKeepsPast(v, scope, parent, c, n);
    assert Rollback(v, |v.ops|) == v;
    if c.DoRollback? {
      forall m | n <= m <= |r.ops| ensures AllocatesVisible(Rollback(r, m), parent) {
        if c.n <= |v.ops| {
          RollbackTwice(v, c.n, m);
        }
      }
    } else {
      UndoMarks(v, scope, parent, c);
      hide AllocatesVisible, ReturnsToParent;
      forall m | n <= m <= |r.ops| ensures AllocatesVisible(Rollback(r, m), parent) {
        if m == |r.ops| {
          VisibleStep(v, scope, parent, c);
        } else if r != v {
          VisibleDropped(v, parent, c.k, m);
        }
      }
    }
  }

  lemma VisibleStep(v: View, scope: Scope, parent: Store, c: Command)
    requires AllocatesVisible(v, parent) && !c.DoRollback?
    ensures AllocatesVisible(Perform(v, scope, parent, c), parent)
  {
  }

  lemma VisibleDropped(v: View, parent: Store, k: Key, m: nat)
    requires m <= |v.ops| && AllocatesVisible(Rollback(v, m), parent)
    ensures AllocatesVisible(Rollback(DropMark(v, k), m), parent)
  {
    RollbackDropped(v, k, m);
  }

  /** Above `n` the first entry that creates or removes `k` is a removal that recorded its mark. */
  predicate RemovedFirst(ops: seq<OpRecord>, n: nat, k: Key)
    decreases |ops|
  {
    |ops| > n ==>
      var most, op := ops[..|ops| - 1], ops[|ops| - 1];
      && RemovedFirst(most, n, k)
      && (op.k == k && !op.kind.InsertOp? ==> Recorded(most, n, k) || (op.kind.RemoveOp? && Settles(op, k)))
  }

  lemma {:induction false} RemovedFirstSettles(ops: seq<OpRecord>, n: nat, k: Key)
    requires RemovedFirst(ops, n, k)
    ensures Settled(ops, n, k) <==> Removed(ops, n, k)
    ensures Settled(ops, n, k) ==> Recorded(ops, n, k)
    decreases |ops|
  {
    if |ops| > n {
      var most, last := ops[..|ops| - 1], |ops| - 1;
      RemovedFirstSettles(most, n, k);
      if Recorded(most, n, k) {
        var i :| n <= i < |most| && most[i].kind.RemoveOp? && Settles(most[i], k);
        assert ops[i] == most[i];
      } else if i :| n <= i < |ops| && ops[i].k == k && !ops[i].kind.InsertOp? {
        assert i < last ==> most[i] == ops[i];
      }
    }
  }

  lemma RemovedFirstMore(ops: seq<OpRecord>, n: nat, k: Key, op: OpRecord, marked: bool)
    requires n <= |ops| && RemovedFirst(ops, n, k)
    requires op.k == k && marked ==> !op.kind.CreateOp? && (op.kind.RemoveOp? ==> op.pastAllocates.Some?)
    requires !marked ==> Recorded(ops, n, k)
    ensures RemovedFirst(ops + [op], n, k)
  {
    assert (ops + [op])[..|ops|] == ops;
  }

  lemma RemovedFirstStep(v: View, scope: Scope, parent: Store, c: Command, n: nat, k: Key)
    requires Tracked(v) && VisibleAbove(v, parent, n) && (c.DoRollback? ==> n <= c.n)
    requires RemovedFirst(v.ops, n, k) && k in Rollback(v, n).allocates
    ensures RemovedFirst(Perform(v, scope, parent, c).ops, n, k)
  {
    hide Recorded, Insert, Remove;
    var r := Perform(v, scope, parent, c);
    assert Rollback(v, |v.ops|) == v;
    if c.DoRollback? {
      hide RemovedFirst, AllocatesVisible;
      if c.n <= |v.ops| {
        RollbackTracked(v, c.n);
        RemovedFirstPrefix(v.ops, n, k, c.n);
      }
    } else if r != v {
      PerformAllocates(v, scope, parent, c);
      hide RemovedFirst, AllocatesVisible, ReturnsToParent, Perform, Undo, Rollback;
      PerformLogs(v, scope, parent, c);
      if k !in v.allocates {
        BroughtBack(v, k, n);
      }
      RemovedFirstMore(v.ops, n, k, r.ops[|v.ops|], k in v.allocates);
    }
  }

  lemma PerformLogs(v: View, scope: Scope, parent: Store, c: Command)
    requires !c.DoRollback? && Perform(v, scope, parent, c) != v
    ensures var r := Perform(v, scope, parent, c);
            |r.ops| == |v.ops| + 1 && r.ops == v.ops + [r.ops[|v.ops|]]
  {
  }

  lemma {:induction false} RemovedFirstPrefix(ops: seq<OpRecord>, n: nat, k: Key, m: nat)
    requires RemovedFirst(ops, n, k) && n <= m <= |ops|
    ensures RemovedFirst(ops[..m], n, k)
    decreases |ops|
  {
    if m < |ops| {
      RemovedFirstPrefix(ops[..|ops| - 1], n, k, m);
      assert ops[..|ops| - 1][..m] == ops[..m];
    } else {
      assert ops[..m] == ops;
    }
  }

  /** What a rollback to `n` gives for the mark of `k`, after one more command. */
  lemma RollbackMarkStep(v: View, scope: Scope, parent: Store, c: Command, n: nat, k: Key)
    requires Tracked(v) && VisibleAbove(v, parent, n) && (c.DoRollback? ==> n <= c.n)
    requires k in Rollback(v, n).allocates ==> RemovedFirst(v.ops, n, k)
    ensures var r := Perform(v, scope, parent, c);
            && n <= |r.ops|
            && Tally(Rollback(r, n).allocates, k)
               == if ReturnsToParent(v, scope, parent, c) && c.k == k && !Removed(v.ops, n, k) then Nothing
                  else Tally(Rollback(v, n).allocates, k)
  {
    hide Insert, Remove, Settled, Removed, RemovedFirst, Undo;
    var r := Perform(v, scope, parent, c);
    assert Rollback(v, |v.ops|) == v;
    if c.DoRollback? {
      if c.n <= |v.ops| {
        RollbackTwice(v, c.n, n);
      }
    } else {
      UndoMarks(v, scope, parent, c);
      RollbackDropped(v, c.k, n);
      hide AllocatesVisible, ReturnsToParent, Perform;
      if k in Rollback(v, n).allocates {
        RemovedFirstSettles(v.ops, n, k);
      }
    }
  }

  lemma TalliesEqual(a: map<Key, nat>, b: map<Key, nat>)
    requires forall k :: Tally(a, k) == Tally(b, k)
    ensures a == b
  {
    assert forall k :: k in a ==> Tally(b, k).Some?;
    assert forall k :: k in b ==> Tally(a, k).Some?;
    assert forall k | k in a :: Some(a[k]) == Tally(b, k);
  }

  /** One key of the tally after any history, with inner rollbacks. */
  lemma {:induction false} RollbackMark(v: View, scope: Scope, parent: Store, cs: seq<Command>, k: Key)
    requires Tracked(v) && AllocatesVisible(v, parent) && StaysPast(cs, |v.ops|)
    ensures var r := PerformAll(v, scope, parent, cs);
            && Tracked(r) && VisibleAbove(r, parent, |v.ops|)
            && Tally(Rollback(r, |v.ops|).allocates, k)
               == (if LosesMark(k, v, scope, parent, cs) then Nothing else Tally(v.allocates, k))
            && (k in Rollback(r, |v.ops|).allocates ==> RemovedFirst(r.ops, |v.ops|, k))
    decreases |cs|
  {
    if cs == [] {
      assert Rollback(v, |v.ops|) == v;
    } else {
      var most, c := cs[..|cs| - 1], cs[|cs| - 1];
      assert forall i | 0 <= i < |most| :: most[i] == cs[i];
      RollbackMark(v, scope, parent, most, k);
      var u := PerformAll(v, scope, parent, most);
      VisibleAboveStep(u, scope, parent, c, |v.ops|);
      RollbackMarkStep(u, scope, parent, c, |v.ops|, k);
      if k in Rollback(u, |v.ops|).allocates {
        RemovedFirstStep(u, scope, parent, c, |v.ops|, k);
      }
    }
  }

  /**
   * What a rollback leaves of the allocation tally after any history, with inner rollbacks: exactly the
   * marks that the history does not lose.
   */
  lemma RollbackAllocates(v: View, scope: Scope, parent: Store, cs: seq<Command>)
    requires Tracked(v) && AllocatesVisible(v, parent) && StaysPast(cs, |v.ops|)
    ensures var r := PerformAll(v, scope, parent, cs);
            |v.ops| <= |r.ops| && Rollback(r, |v.ops|).allocates == Kept(v, scope, parent, cs)
  {
    var r := PerformAll(v, scope, parent, cs);
    RollbackMark(v, scope, parent, cs, []);
    forall k ensures Tally(Rollback(r, |v.ops|).allocates, k) == Tally(Kept(v, scope, parent, cs), k) {
      RollbackMark(v, scope, parent, cs, k);
    }
    TalliesEqual(Rollback(r, |v.ops|).allocates, Kept(v, scope, parent, cs));
  }

  /** Every view a fresh one can become meets the hypotheses on `v`. */
  lemma ReachableMarksVisible(scope: Scope, parent: Store, cs: seq<Command>)
    ensures var v := PerformAll(EMPTY, scope, parent, cs);
            Tracked(v) && AllocatesVisible(v, parent)
  {
    RollbackMark(EMPTY, scope, parent, cs, []);
    var v := PerformAll(EMPTY, scope, parent, cs);
    assert Rollback(v, |v.ops|) == v;
  }

  /** So a rollback restores the allocation tally exactly when the history loses no mark. */
  lemma RollbackRestoresAllocates(v: View, scope: Scope, parent: Store, cs: seq<Command>)
    requires Tracked(v) && AllocatesVisible(v, parent) && StaysPast(cs, |v.ops|)
    ensures var r := PerformAll(v, scope, parent, cs);
            |v.ops| <= |r.ops| &&
            (Rollback(r, |v.ops|).allocates == v.allocates
             <==> forall k | k in v.allocates :: !LosesMark(k, v, scope, parent, cs))
  {
    RollbackAllocates(v, scope, parent, cs);
    var kept := Kept(v, scope, parent, cs);
    if kept == v.allocates {
      assert forall k | k in v.allocates :: k in kept;
    }
  }

  lemma SmallKey()
    ensures MaxChunks([0, 1]) == Some(1) && VerifyValue([0, 1], [7]) && VerifyValue([0, 1], [8])
  {
    var k: Key := [0, 1];
    assert k[|k| - 2..] == k && k[..1] == [0];
    assert BigEndian([0]) == 0;
    assert BigEndian(k) == 1;
  }

  lemma TwoPerformed(v: View, scope: Scope, parent: Store, a: Command, b: Command)
    ensures PerformAll(v, scope, parent, [a, b]) == Perform(Perform(v, scope, parent, a), scope, parent, b)
  {
    hide Perform;
    assert [a, b][..1] == [a] && [a][..0] == [];
    assert PerformAll(v, scope, parent, [a]) == Perform(v, scope, parent, a);
  }

  /** A mark that is lost: the key is re-created, written back to the parent's value and rolled back. */
  lemma LostMark()
    ensures var k: Key := [0, 1];
            var parent: Store := map[k := [7]];
            var v := PerformAll(EMPTY, Complete, parent, [DoRemove(k), DoInsert(k, [8])]);
            && k in v.allocates
            && LosesMark(k, v, Complete, parent, [DoInsert(k, [7])])
            && k !in Rollback(Perform(v, Complete, parent, DoInsert(k, [7])), |v.ops|).allocates
  {
    var k: Key := [0, 1];
    var parent: Store := map[k := [7]];
    SmallKey();
    TwoPerformed(EMPTY, Complete, parent, DoRemove(k), DoInsert(k, [8]));
    hide MaxChunks, VerifyValue, NumChunks, PerformAll;
    var v1 := Perform(EMPTY, Complete, parent, DoRemove(k));
    assert v1.pending == map[k := Nothing];
    var v := Perform(v1, Complete, parent, DoInsert(k, [8]));
    var r := Perform(v, Complete, parent, DoInsert(k, [7]));
    assert |r.ops| == |v.ops| + 1;
    assert Rollback(r, |v.ops|) == Undo(r);
    assert r.ops[|r.ops| - 1].kind.InsertOp?;
  }

  // ---------------------------------------------------------------------------------------------
  // The tallies
  // ---------------------------------------------------------------------------------------------

  /** The chunks that a pending change writes; a removal writes none. */
  function ChunksOf(change: Maybe<Value>): (n: nat) {
    if change.Nothing? || change.value == [] then 0 else |change.value| / 64 + 1
  }

  /** Each pending change is tallied with its chunks, and nothing else is. */
  predicate WritesExact(v: View) {
    Tracked(v) && forall k | k in v.pending :: v.writes[k] == ChunksOf(v.pending[k])
  }

  predicate Reserves(k: Key, n: nat) {
    |k| >= 2 && n == BigEndian(k[|k| - 2..])
  }

  /** Each mark, in force or to be restored, is the number of chunks that its key reserves. */
  predicate MarksExact(v: View) {
    && (forall k | k in v.allocates :: Reserves(k, v.allocates[k]))
    && (forall op | op in v.ops && op.pastAllocates.Some? :: Reserves(op.k, op.pastAllocates.value))
  }

  lemma ChangedExact(v: View, r: View, k: Key, change: Maybe<Value>)
    requires WritesExact(v)
    requires r.pending == v.pending[k := change] && r.writes == v.writes[k := ChunksOf(change)]
    ensures WritesExact(r)
  {
    hide ChunksOf;
  }

  lemma ForgottenExact(v: View, r: View, k: Key)
    requires WritesExact(v) && r.pending == v.pending - {k} && r.writes == v.writes - {k}
    ensures WritesExact(r)
  {
    hide ChunksOf;
  }

  lemma InsertWrites(v: View, scope: Scope, pv: Maybe<Value>, k: Key, value: Value)
    requires WritesExact(v)
    ensures WritesExact(Insert(v, scope, pv, k, value).0)
  {
    var r := Insert(v, scope, pv, k, value).0;
    hide WritesExact;
    if r != v {
      if pv == Some(value) {
        ForgottenExact(v, r, k);
      } else {
        ChangedExact(v, r, k, Some(value));
      }
    }
  }

  lemma RemoveWrites(v: View, scope: Scope, pv: Maybe<Value>, k: Key)
    requires WritesExact(v)
    ensures WritesExact(Remove(v, scope, pv, k).0)
  {
    var r := Remove(v, scope, pv, k).0;
    hide WritesExact;
    if r != v {
      if k in v.allocates || pv.Nothing? {
        ForgottenExact(v, r, k);
      } else {
        ChangedExact(v, r, k, Nothing);
      }
    }
  }

  lemma PerformWrites(v: View, scope: Scope, parent: Store, c: Command)
    requires WritesExact(v) && !c.DoRollback?
    ensures WritesExact(Perform(v, scope, parent, c))
  {
    hide WritesExact;
    match c
    case DoInsert(k, value) => InsertWrites(v, scope, ReadStore(parent, k), k, value);
    case DoRemove(k) => RemoveWrites(v, scope, ReadStore(parent, k), k);
  }

  lemma {:induction false} RollbackMarks(v: View, n: nat)
    requires MarksExact(v) && n <= |v.ops|
    ensures MarksExact(Rollback(v, n))
    decreases |v.ops|
  {
    if |v.ops| > n {
      var op := v.ops[|v.ops| - 1];
      assert op in v.ops;
      assert forall x | x in Undo(v).ops :: x in v.ops;
      RollbackMarks(Undo(v), n);
    }
  }

  lemma LoggedMarks(v: View, r: View, op: OpRecord)
    requires MarksExact(v) && r.ops == v.ops + [op] && op.pastAllocates == Tally(v.allocates, op.k)
    requires forall k | k in r.allocates ::
               Reserves(k, r.allocates[k]) || (k in v.allocates && r.allocates[k] == v.allocates[k])
    ensures MarksExact(r)
  {
    assert forall x | x in r.ops :: x in v.ops || x == op;
  }

  lemma InsertMarks(v: View, scope: Scope, pv: Maybe<Value>, k: Key, value: Value)
    requires MarksExact(v)
    ensures MarksExact(Insert(v, scope, pv, k, value).0)
  {
    var r := Insert(v, scope, pv, k, value).0;
    hide MarksExact, NumChunks;
    if r != v {
      LoggedMarks(v, r, Record(v, if Visible(v, pv, k).Some? then InsertOp else CreateOp, pv, k));
    }
  }

  lemma RemoveMarks(v: View, scope: Scope, pv: Maybe<Value>, k: Key)
    requires MarksExact(v)
    ensures MarksExact(Remove(v, scope, pv, k).0)
  {
    var r := Remove(v, scope, pv, k).0;
    hide MarksExact;
    if r != v {
      LoggedMarks(v, r, Record(v, RemoveOp, pv, k));
    }
  }

  lemma PerformMarks(v: View, scope: Scope, parent: Store, c: Command)
    requires MarksExact(v)
    ensures MarksExact(Perform(v, scope, parent, c))
  {
    hide MarksExact;
    match c
    case DoInsert(k, value) => InsertMarks(v, scope, ReadStore(parent, k), k, value);
    case DoRemove(k) => RemoveMarks(v, scope, ReadStore(parent, k), k);
    case DoRollback(n) =>
      if n <= |v.ops| {
        RollbackMarks(v, n);
      }
  }

  /**
   * Over every history of a view, rollbacks included, the write tally of a key is the number of chunks
   * of its pending value, at every point that can be rolled back to, and its allocation tally is the
   * number of chunks that the key reserves.
   */
  lemma {:induction false} TalliesExact(scope: Scope, parent: Store, cs: seq<Command>, n: nat)
    requires n <= |PerformAll(EMPTY, scope, parent, cs).ops|
    ensures var v := PerformAll(EMPTY, scope, parent, cs);
            MarksExact(v) && WritesExact(Rollback(v, n))
    decreases |cs|
  {
    hide MarksExact, WritesExact;
    if cs == [] {
      EmptyExact();
    } else {
      var (most, c) := (cs[..|cs| - 1], cs[|cs| - 1]);
      var v := PerformAll(EMPTY, scope, parent, most);
      var r := Perform(v, scope, parent, c);
      TalliesExact(scope, parent, most, |v.ops|);
      PerformMarks(v, scope, parent, c);
      ExactTracked(v);
      if c.DoRollback? {
        if c.n <= |v.ops| {
          RollbackTwice(v, c.n, n);
        }
        TalliesExact(scope, parent, most, n);
      } else if n <= |v.ops| {
        TalliesExact(scope, parent, most, n);
        PerformKeepsPast(v, scope, parent, c, n);
        SameExact(Rollback(v, n), Rollback(r, n));
      } else {
        PerformWrites(v, scope, parent, c);
        OneMoreLogged(v, scope, parent, c);
      }
    }
  }

  lemma EmptyExact()
    ensures MarksExact(EMPTY) && WritesExact(EMPTY)
  {
  }

  lemma ExactTracked(v: View)
    requires WritesExact(v)
    ensures Tracked(v)
  {
  }

  lemma SameExact(a: View, b: View)
    requires WritesExact(a) && Same(a, b)
    ensures WritesExact(b)
  {
  }

  lemma OneMoreLogged(v: View, scope: Scope, parent: Store, c: Command)
    requires !c.DoRollback?
    ensures |Perform(v, scope, parent, c).ops| <= |v.ops| + 1
  {
  }
}
