/** Verifying a block in parallel equals running its transactions one by one in queue order. */
module QueueOrder {
  import opened Bytes
  import opened StateKeys
  import opened Views
  import opened Units
  import opened Executor
  import opened ExecutorOrder
  import opened Serializability

  /** Running a body alone to its end, if it has one. */
  ghost function ToTheEnd(job: Job, base: Store, shared: Changes): (r: Maybe<Session>) {
    if n: nat :| Returned(job, base, shared, n) then Some(Alone(job, base, shared, n)) else Nothing
  }

  lemma EndOf(job: Job, base: Store, shared: Changes, n: nat)
    requires Returned(job, base, shared, n)
    ensures ToTheEnd(job, base, shared) == Some(Alone(job, base, shared, n))
  {
    var m: nat :| Returned(job, base, shared, m) && ToTheEnd(job, base, shared) == Some(Alone(job, base, shared, m));
    ReturnedOnce(job, base, shared, m, n);
  }

  /** The changes that job `j` commits when the jobs run one by one. */
  ghost function Written(cfg: Config, shared0: Changes, j: nat): (w: Changes)
    requires j < |cfg.jobs|
    decreases j, 1
  {
    match ToTheEnd(cfg.jobs[j], cfg.base, Sequential(cfg, shared0, j))
    case Nothing => map[]
    case Some(x) => if cfg.jobs[j].prog(x.heard).outcome.Finish? then x.view.pending else map[]
  }

  /** The reference: the shared changes after the first `m` jobs, run one by one. */
  ghost function Sequential(cfg: Config, shared0: Changes, m: nat): (r: Changes)
    requires m <= |cfg.jobs|
    decreases m, 0
  {
    if m == 0 then shared0 else Sequential(cfg, shared0, m - 1) + Written(cfg, shared0, m - 1)
  }

  /** The same, but only the jobs in `c` commit. */
  ghost function Partial(cfg: Config, shared0: Changes, c: set<Id>, m: nat): (r: Changes)
    requires m <= |cfg.jobs|
  {
    if m == 0 then shared0
    else
      var before := Partial(cfg, shared0, c, m - 1);
      if m - 1 in c then before + Written(cfg, shared0, m - 1) else before
  }

  function At(ch: Changes, k: Key): (r: Maybe<Maybe<Value>>) {
    if k in ch then Some(ch[k]) else Nothing
  }

  lemma ChangesEqual(a: Changes, b: Changes)
    requires forall k :: At(a, k) == At(b, k)
    ensures a == b
  {
    assert forall k :: k in a ==> At(b, k).Some?;
    assert forall k :: k in b ==> At(a, k).Some?;
    assert forall k | k in a :: Some(a[k]) == At(b, k);
  }

  lemma WrittenConfined(cfg: Config, shared0: Changes, j: nat, k: Key)
    requires j < |cfg.jobs| && k in Written(cfg, shared0, j)
    ensures k in cfg.jobs[j].keys && Has(cfg.jobs[j].keys[k], WRITE) && cfg.jobs[j].keys[k] != READ
  {
    var before := Sequential(cfg, shared0, j);
    var n: nat :| Returned(cfg.jobs[j], cfg.base, before, n)
                  && ToTheEnd(cfg.jobs[j], cfg.base, before) == Some(Alone(cfg.jobs[j], cfg.base, before, n));
    AloneConfined(cfg.jobs[j], cfg.base, before, n);
    WriterIsExclusive(cfg.jobs[j].keys[k]);
  }

  lemma {:induction false} PartialSame(cfg: Config, shared0: Changes, c: set<Id>, d: set<Id>, m: nat, k: Key)
    requires m <= |cfg.jobs|
    requires forall j | 0 <= j < m && k in Written(cfg, shared0, j) :: j in c <==> j in d
    ensures At(Partial(cfg, shared0, c, m), k) == At(Partial(cfg, shared0, d, m), k)
  {
    if m > 0 {
      PartialSame(cfg, shared0, c, d, m - 1, k);
    }
  }

  lemma {:induction false} PartialLast(cfg: Config, shared0: Changes, c: set<Id>, m: nat, i: Id, k: Key)
    requires i < m <= |cfg.jobs| && i in c && k in Written(cfg, shared0, i)
    requires forall j | i < j < m && k in Written(cfg, shared0, j) :: j !in c
    ensures At(Partial(cfg, shared0, c, m), k) == Some(Written(cfg, shared0, i)[k])
  {
    if m - 1 > i {
      PartialLast(cfg, shared0, c, m - 1, i, k);
    }
  }

  lemma {:induction false} PartialFirst(cfg: Config, shared0: Changes, c: set<Id>, i: nat, m: nat)
    requires i <= m <= |cfg.jobs|
    requires forall j | 0 <= j < m :: j in c <==> j < i
    ensures Partial(cfg, shared0, c, m) == Sequential(cfg, shared0, i)
    decreases m
  {
    if m > 0 {
      PartialFirst(cfg, shared0, c, if i < m then i else m - 1, m - 1);
    }
  }

  // ---------------------------------------------------------------------------------------------
  // The invariant
  // ---------------------------------------------------------------------------------------------

  ghost function Committed(s: State): (c: set<Id>) {
    set e | e in s.log :: e.id
  }

  ghost predicate Sequentially(cfg: Config, shared0: Changes, e: Entry) {
    && e.id < |cfg.jobs|
    && cfg.jobs[e.id].prog(Alone(cfg.jobs[e.id], cfg.base, Sequential(cfg, shared0, e.id), e.steps).heard)
       == Return(Finish(e.result))
  }

  /** While nothing has failed: whoever is over has committed, with its sequential result. */
  ghost predicate InQueueOrder(cfg: Config, shared0: Changes, s: State) {
    && |s.tasks| <= |cfg.jobs|
    && (forall i | 0 <= i < |s.tasks| && BodyDone(s.tasks[i].phase) :: i in Committed(s))
    && (forall e | e in s.log :: Sequentially(cfg, shared0, e))
    && s.shared == Partial(cfg, shared0, Committed(s), |cfg.jobs|)
  }

  function Below(i: nat): (r: set<Id>)
    ensures forall j :: j in r <==> 0 <= j < i
  {
    if i == 0 then {} else Below(i - 1) + {i - 1}
  }

  lemma StartedAfterDone(cfg: Config, s: State, a: Id, b: Id, k: Key)
    requires Links(cfg, s) && Dispatch(cfg, s) && Order(cfg, s) && a < b < |s.tasks|
    requires k in cfg.jobs[a].keys && k in cfg.jobs[b].keys
    requires !(cfg.jobs[a].keys[k] == READ && cfg.jobs[b].keys[k] == READ)
    requires !s.tasks[b].phase.Idle?
    ensures BodyDone(s.tasks[a].phase)
  {
    assert Counted(cfg, s, b);
    assert Conflict(cfg, s, a, b, k);
  }

  /** A conflicting writer is committed exactly if it comes first. */
  lemma WriterBefore(cfg: Config, shared0: Changes, s: State, i: Id, k: Key, j: Id)
    requires Links(cfg, s) && Dispatch(cfg, s) && Order(cfg, s) && Logged(cfg, s)
    requires forall x | 0 <= x < |s.tasks| && BodyDone(s.tasks[x].phase) :: x in Committed(s)
    requires i < |s.tasks| && s.tasks[i].phase.Running? && k in cfg.jobs[i].keys
    requires j < |cfg.jobs| && k in Written(cfg, shared0, j)
    ensures j in Committed(s) <==> j < i
  {
    WrittenConfined(cfg, shared0, j, k);
    if j < i {
      StartedAfterDone(cfg, s, j, i, k);
    } else if j in Committed(s) {
      CommittedIsDone(cfg, s, j);
      assert i < j;
      StartedAfterDone(cfg, s, i, j, k);
    }
  }

  lemma CommittedIsDone(cfg: Config, s: State, j: Id)
    requires Logged(cfg, s) && j in Committed(s)
    ensures j < |s.tasks| && BodyDone(s.tasks[j].phase)
  {
    var e :| e in s.log && e.id == j;
    var p :| 0 <= p < |s.log| && s.log[p] == e;
  }

  /** A running body sees, at its keys, the state that the jobs before it leave. */
  lemma SeesSequential(cfg: Config, shared0: Changes, s: State, i: Id)
    requires Inv(cfg, s) && Logged(cfg, s) && InQueueOrder(cfg, shared0, s)
    requires i < |s.tasks| && s.tasks[i].phase.Running?
    ensures AgreeOn(s.shared, Sequential(cfg, shared0, i), cfg.jobs[i].keys.Keys)
  {
    var first := Below(i);
    PartialFirst(cfg, shared0, first, i, |cfg.jobs|);
    forall k | k in cfg.jobs[i].keys
      ensures At(s.shared, k) == At(Sequential(cfg, shared0, i), k)
    {
      forall j | 0 <= j < |cfg.jobs| && k in Written(cfg, shared0, j)
        ensures j in Committed(s) <==> j in first
      {
        WriterBefore(cfg, shared0, s, i, k, j);
      }
      PartialSame(cfg, shared0, Committed(s), first, |cfg.jobs|, k);
    }
  }

  lemma QuietKeepsQueueOrder(cfg: Config, shared0: Changes, s: State, r: State)
    requires InQueueOrder(cfg, shared0, s) && SameData(s, r) && |r.tasks| <= |cfg.jobs|
    requires forall i | 0 <= i < |r.tasks| && BodyDone(r.tasks[i].phase) :: i < |s.tasks| && BodyDone(s.tasks[i].phase)
    ensures InQueueOrder(cfg, shared0, r)
  {
  }

  /** The committing body wrote exactly what it writes sequentially, and returned the same. */
  lemma CommitsSequentially(cfg: Config, shared0: Changes, s: State, i: Id, result: Result)
    requires Inv(cfg, s) && InCommitOrder(cfg, shared0, s) && InQueueOrder(cfg, shared0, s)
    requires i < |s.tasks| && s.tasks[i].phase.Running?
    requires cfg.jobs[i].prog(s.tasks[i].phase.session.heard) == Return(Finish(result))
    ensures Sequentially(cfg, shared0, Entry(i, result, |s.tasks[i].phase.session.heard|))
    ensures Written(cfg, shared0, i) == s.tasks[i].phase.session.view.pending
  {
    var x := s.tasks[i].phase.session;
    var before := Sequential(cfg, shared0, i);
    assert LiveSession(cfg, s, i);
    SeesSequential(cfg, shared0, s, i);
    hide Inv, InCommitOrder, InQueueOrder, Alone, ToTheEnd, Sequential;
    AloneLocal(cfg.jobs[i], cfg.base, s.shared, before, |x.heard|);
    EndOf(cfg.jobs[i], cfg.base, before, |x.heard|);
  }

  lemma PartialCommit(cfg: Config, shared0: Changes, c: set<Id>, i: Id)
    requires i < |cfg.jobs| && i !in c
    requires forall j, k | i < j < |cfg.jobs| && j in c && k in Written(cfg, shared0, i) ::
               k !in Written(cfg, shared0, j)
    ensures Partial(cfg, shared0, c + {i}, |cfg.jobs|)
            == Partial(cfg, shared0, c, |cfg.jobs|) + Written(cfg, shared0, i)
  {
    var w := Written(cfg, shared0, i);
    var a := Partial(cfg, shared0, c + {i}, |cfg.jobs|);
    var b := Partial(cfg, shared0, c, |cfg.jobs|) + w;
    forall k ensures At(a, k) == At(b, k) {
      if k in w {
        PartialLast(cfg, shared0, c + {i}, |cfg.jobs|, i, k);
      } else {
        PartialSame(cfg, shared0, c + {i}, c, |cfg.jobs|, k);
      }
    }
    ChangesEqual(a, b);
  }

  /** No later job has committed a change to what a running body writes. */
  lemma NoLaterWriter(cfg: Config, shared0: Changes, s: State, i: Id)
    requires Inv(cfg, s) && Logged(cfg, s) && InQueueOrder(cfg, shared0, s)
    requires i < |s.tasks| && s.tasks[i].phase.Running?
    ensures i !in Committed(s)
    ensures forall j, k | i < j < |cfg.jobs| && j in Committed(s) && k in Written(cfg, shared0, i) ::
              k !in Written(cfg, shared0, j)
  {
    if i in Committed(s) {
      CommittedIsDone(cfg, s, i);
    }
    forall j, k | i < j < |cfg.jobs| && j in Committed(s) && k in Written(cfg, shared0, i)
      ensures k !in Written(cfg, shared0, j)
    {
      WrittenConfined(cfg, shared0, i, k);
      if k in Written(cfg, shared0, j) {
        WriterBefore(cfg, shared0, s, i, k, j);
      }
    }
  }

  lemma CommitKeepsQueueOrder(cfg: Config, shared0: Changes, s: State, i: Id, result: Result, r: State)
    requires Inv(cfg, s) && InCommitOrder(cfg, shared0, s) && InQueueOrder(cfg, shared0, s)
    requires i < |s.tasks| && s.tasks[i].phase.Running?
    requires cfg.jobs[i].prog(s.tasks[i].phase.session.heard) == Return(Finish(result))
    requires r.tasks == s.tasks[i := s.tasks[i].(phase := Dropping)]
    requires r.shared == s.shared + s.tasks[i].phase.session.view.pending
    requires r.log == s.log + [Entry(i, result, |s.tasks[i].phase.session.heard|)]
    ensures InQueueOrder(cfg, shared0, r)
  {
    CommitsSequentially(cfg, shared0, s, i, result);
    NoLaterWriter(cfg, shared0, s, i);
    PartialCommit(cfg, shared0, Committed(s), i);
    assert Committed(r) == Committed(s) + {i};
  }

  lemma StepInQueueOrder(cfg: Config, shared0: Changes, s: State, a: Action)
    requires Inv(cfg, s) && InCommitOrder(cfg, shared0, s) && InQueueOrder(cfg, shared0, s) && Enabled(cfg, s, a)
    requires cfg.mode.Process? && Apply(cfg, s, a).err.Nothing?
    ensures s.err.Nothing? ==> InQueueOrder(cfg, shared0, Apply(cfg, s, a))
  {
    hide InQueueOrder, InCommitOrder, Dispatch, Owners, Order, Linked, Advance, Settle;
    var r := Apply(cfg, s, a);
    if s.err.Nothing? {
      match a
      case EndBody(i) => EndBodyInQueueOrder(cfg, shared0, s, i);
      case Start(_) => QuietKeepsQueueOrder(cfg, shared0, s, r);
      case Operate(i) => QuietKeepsQueueOrder(cfg, shared0, s, r);
      case _ => AdministrativeBodies(cfg, s, a); QuietKeepsQueueOrder(cfg, shared0, s, r);
    }
  }

  lemma AdministrativeBodies(cfg: Config, s: State, a: Action)
    requires |s.tasks| <= |cfg.jobs| && Enabled(cfg, s, a) && Administrative(a)
    ensures var r := Apply(cfg, s, a);
            && SameData(s, r)
            && |r.tasks| <= |cfg.jobs|
            && forall i | 0 <= i < |r.tasks| && BodyDone(r.tasks[i].phase) ::
                 i < |s.tasks| && BodyDone(s.tasks[i].phase)
  {
    hide Advance, Settle, Blockers;
  }

  lemma EndBodyInQueueOrder(cfg: Config, shared0: Changes, s: State, i: Id)
    requires Inv(cfg, s) && InCommitOrder(cfg, shared0, s) && InQueueOrder(cfg, shared0, s)
    requires cfg.mode.Process? && Enabled(cfg, s, EndBody(i)) && Apply(cfg, s, EndBody(i)).err.Nothing?
    ensures InQueueOrder(cfg, shared0, Apply(cfg, s, EndBody(i)))
  {
    hide Links, Dispatch, Owners, Order, InCommitOrder, InQueueOrder;
    var o := cfg.jobs[i].prog(s.tasks[i].phase.session.heard).outcome;
    CommitKeepsQueueOrder(cfg, shared0, s, i, o.result, Apply(cfg, s, EndBody(i)));
  }

  /** Errors stay. */
  lemma ErrorStays(cfg: Config, s: State, a: Action)
    requires Enabled(cfg, s, a) && s.err.Some?
    ensures Apply(cfg, s, a).err == s.err
  {
    if a.EndBody? {
      var o := cfg.jobs[a.id].prog(s.tasks[a.id].phase.session.heard).outcome;
      SettleError(cfg, s, a.id, o);
    }
  }

  lemma SettleError(cfg: Config, s: State, i: Id, o: Outcome)
    requires i < |s.tasks| && s.tasks[i].phase.Running? && s.err.Some?
    ensures Settle(cfg, s, i, o).err == s.err
  {
  }

  lemma {:induction false} RunInQueueOrder(cfg: Config, shared0: Changes, s: State, acts: seq<Action>)
    requires Inv(cfg, s) && InCommitOrder(cfg, shared0, s) && Runs(cfg, s, acts) && Timely(cfg, s, acts)
    requires cfg.mode.Process? && (s.err.Nothing? ==> InQueueOrder(cfg, shared0, s))
    ensures var r := After(cfg, s, acts);
            && Inv(cfg, r)
            && InCommitOrder(cfg, shared0, r)
            && (r.err.Nothing? ==> InQueueOrder(cfg, shared0, r))
    decreases |acts|
  {
    if acts != [] {
      var next := Apply(cfg, s, acts[0]);
      StepKeeps(cfg, s, acts[0]);
      StepInCommitOrder(cfg, shared0, s, acts[0]);
      if next.err.Nothing? {
        if s.err.Some? {
          ErrorStays(cfg, s, acts[0]);
        }
        StepInQueueOrder(cfg, shared0, s, acts[0]);
      }
      RunInQueueOrder(cfg, shared0, next, acts[1..]);
    }
  }

  /**
   * Serializability in queue order: in every error-free interleaving each committed task has the result
   * it has when the jobs run one by one, and once every body is over the shared changes are those of
   * running the whole block one by one.
   */
  lemma SerialInQueueOrder(cfg: Config, shared0: Changes, consumed0: Dimensions, acts: seq<Action>)
    requires cfg.mode.Process?
    requires Runs(cfg, Init(shared0, consumed0), acts) && Timely(cfg, Init(shared0, consumed0), acts)
    requires After(cfg, Init(shared0, consumed0), acts).err.Nothing?
    ensures var s := After(cfg, Init(shared0, consumed0), acts);
            && |s.tasks| <= |cfg.jobs|
            && (forall e | e in s.log :: Sequentially(cfg, shared0, e))
            && (forall i | 0 <= i < |s.tasks| && BodyDone(s.tasks[i].phase) :: i in Committed(s))
            && (|s.tasks| == |cfg.jobs| && (forall i | 0 <= i < |s.tasks| :: BodyDone(s.tasks[i].phase))
                ==> s.shared == Sequential(cfg, shared0, |cfg.jobs|))
  {
    var s0 := Init(shared0, consumed0);
    InitInv(cfg, shared0, consumed0);
    assert Place(cfg, []) == [];
    PartialFirst(cfg, shared0, {}, 0, |cfg.jobs|);
    assert Committed(s0) == {};
    RunInQueueOrder(cfg, shared0, s0, acts);
    var s := After(cfg, s0, acts);
    if |s.tasks| == |cfg.jobs| && forall i | 0 <= i < |s.tasks| :: BodyDone(s.tasks[i].phase) {
      PartialFirst(cfg, shared0, Committed(s), |cfg.jobs|, |cfg.jobs|);
    }
  }
}
