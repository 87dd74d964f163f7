/**
 * Parallel execution against its sequential references. In commit order: replaying the committed
 * tasks one by one gives the same shared changes and results, whatever else failed. In queue order:
 * when every task of a block commits, the outcome is that of running them one after the other.
 */
module Serializability {
  import opened Bytes
  import opened StateKeys
  import opened Views
  import opened Units
  import opened Executor
  import opened ExecutorOrder

  // ---------------------------------------------------------------------------------------------
  // A body depends only on its declared keys, and changes only keys it may write
  // ---------------------------------------------------------------------------------------------

  predicate AgreeOn(a: Changes, b: Changes, ks: set<Key>) {
    forall k | k in ks :: (k in a <==> k in b) && (k in a ==> a[k] == b[k])
  }

  /** Everything pending, and everything that could be restored, is under a write permission. */
  predicate Confined(v: View, keys: Keys) {
    && (forall k | k in v.pending :: k in keys && Has(keys[k], WRITE))
    && (forall i | 0 <= i < |v.ops| :: v.ops[i].k in keys && Has(keys[v.ops[i].k], WRITE))
  }

  lemma {:induction false} RollbackConfined(v: View, keys: Keys, n: nat)
    requires Confined(v, keys) && n <= |v.ops|
    ensures Confined(Rollback(v, n), keys)
    decreases |v.ops|
  {
    if |v.ops| > n {
      RollbackConfined(Undo(v), keys, n);
    }
  }

  lemma RespondLocal(v: View, keys: Keys, storage: Store, a: Changes, b: Changes, op: Op)
    requires !op.Return? && AgreeOn(a, b, keys.Keys)
    ensures Respond(v, Limited(keys), storage, a, op) == Respond(v, Limited(keys), storage, b, op)
  {
    WriterIsExclusive(NONE);
    if op.Fetch? || op.Put? || op.Delete? {
      if op.k in keys {
        assert ReadThrough(storage, a, op.k) == ReadThrough(storage, b, op.k);
      } else {
        assert !Limited(keys).Grants(op.k, READ);
        assert !Limited(keys).Grants(op.k, WRITE);
      }
    }
  }

  lemma RespondConfined(v: View, keys: Keys, storage: Store, shared: Changes, op: Op)
    requires !op.Return? && Confined(v, keys)
    ensures Confined(Respond(v, Limited(keys), storage, shared, op).0, keys)
  {
    hide VerifyValue, NumChunks, MaxChunks;
    WriterIsExclusive(NONE);
    if op.Restore? && op.n <= |v.ops| {
      RollbackConfined(v, keys, op.n);
    }
    if op.Put? || op.Delete? {
      if op.k !in keys {
        assert !Limited(keys).Grants(op.k, WRITE);
      }
    }
  }

  lemma {:induction false} AloneLocal(job: Job, base: Store, a: Changes, b: Changes, n: nat)
    requires AgreeOn(a, b, job.keys.Keys)
    ensures Alone(job, base, a, n) == Alone(job, base, b, n)
  {
    if n > 0 {
      AloneLocal(job, base, a, b, n - 1);
      var x := Alone(job, base, a, n - 1);
      if !job.prog(x.heard).Return? {
        RespondLocal(x.view, job.keys, Prefetched(base, job.keys), a, b, job.prog(x.heard));
      }
    }
  }

  lemma {:induction false} AloneConfined(job: Job, base: Store, shared: Changes, n: nat)
    ensures Confined(Alone(job, base, shared, n).view, job.keys)
    ensures |Alone(job, base, shared, n).heard| <= n
  {
    if n > 0 {
      AloneConfined(job, base, shared, n - 1);
      var x := Alone(job, base, shared, n - 1);
      if !job.prog(x.heard).Return? {
        RespondConfined(x.view, job.keys, Prefetched(base, job.keys), shared, job.prog(x.heard));
      }
    }
  }

  /** The body has returned after `n` operations. */
  ghost predicate Returned(job: Job, base: Store, shared: Changes, n: nat) {
    job.prog(Alone(job, base, shared, n).heard).Return?
  }

  lemma {:induction false} ReturnedStays(job: Job, base: Store, shared: Changes, m: nat, n: nat)
    requires m <= n && Returned(job, base, shared, m)
    ensures Alone(job, base, shared, n) == Alone(job, base, shared, m)
    decreases n - m
  {
    if m < n {
      ReturnedStays(job, base, shared, m, n - 1);
    }
  }

  lemma ReturnedOnce(job: Job, base: Store, shared: Changes, m: nat, n: nat)
    requires Returned(job, base, shared, m) && Returned(job, base, shared, n)
    ensures Alone(job, base, shared, n) == Alone(job, base, shared, m)
  {
    if m <= n {
      ReturnedStays(job, base, shared, m, n);
    } else {
      ReturnedStays(job, base, shared, n, m);
    }
  }

  // ---------------------------------------------------------------------------------------------
  // Commit order
  // ---------------------------------------------------------------------------------------------

  /** A committed task, detached from the run it was committed in. */
  datatype Placed = Placed(job: Job, result: Result, steps: nat)

  ghost function Replay(base: Store, shared: Changes, block: seq<Placed>): (r: Changes) {
    if block == [] then shared
    else
      var p := block[|block| - 1];
      var before := Replay(base, shared, block[..|block| - 1]);
      before + Alone(p.job, base, before, p.steps).view.pending
  }

  /** Running the block's tasks one by one, each ends with the recorded result. */
  ghost predicate ReplaysTo(base: Store, shared: Changes, block: seq<Placed>) {
    block != [] ==>
      var p := block[|block| - 1];
      var most := block[..|block| - 1];
      && ReplaysTo(base, shared, most)
      && p.job.prog(Alone(p.job, base, Replay(base, shared, most), p.steps).heard) == Return(Finish(p.result))
  }

  ghost function Place(cfg: Config, log: seq<Entry>): (block: seq<Placed>)
    requires forall p | 0 <= p < |log| :: log[p].id < |cfg.jobs|
  {
    seq(|log|, p requires 0 <= p < |log| => Placed(cfg.jobs[log[p].id], log[p].result, log[p].steps))
  }

  ghost predicate Logged(cfg: Config, s: State) {
    forall p | 0 <= p < |s.log| :: s.log[p].id < |s.tasks| <= |cfg.jobs| && BodyDone(s.tasks[s.log[p].id].phase)
  }

  ghost predicate Sessions(cfg: Config, s: State)
    requires |s.tasks| <= |cfg.jobs|
  {
    forall i | 0 <= i < |s.tasks| && s.tasks[i].phase.Running? :: LiveSession(cfg, s, i)
  }

  /** What a running body has seen is what it would see if it ran now. */
  ghost predicate LiveSession(cfg: Config, s: State, i: Id)
    requires i < |s.tasks| <= |cfg.jobs| && s.tasks[i].phase.Running?
  {
    var x := s.tasks[i].phase.session;
    x == Alone(cfg.jobs[i], cfg.base, s.shared, |x.heard|)
  }

  ghost predicate InCommitOrder(cfg: Config, shared0: Changes, s: State) {
    && |s.tasks| <= |cfg.jobs|
    && Logged(cfg, s)
    && Sessions(cfg, s)
    && s.shared == Replay(cfg.base, shared0, Place(cfg, s.log))
    && ReplaysTo(cfg.base, shared0, Place(cfg, s.log))
  }

  lemma RunningDoNotConflict(cfg: Config, s: State, i: Id, j: Id, k: Key)
    requires |s.tasks| <= |cfg.jobs| && Order(cfg, s) && i < j < |s.tasks|
    requires s.tasks[i].phase.Running? && s.tasks[j].phase.Running?
    ensures !Conflict(cfg, s, i, j, k)
  {
  }

  /** Two bodies that run at the same time share no key that one of them may write. */
  lemma RunningAreDisjoint(cfg: Config, s: State, i: Id, j: Id, k: Key)
    requires Links(cfg, s) && Dispatch(cfg, s) && Order(cfg, s) && i < |s.tasks| && j < |s.tasks| && i != j
    requires s.tasks[i].phase.Running? && s.tasks[j].phase.Running?
    requires k in cfg.jobs[j].keys && Has(cfg.jobs[j].keys[k], WRITE)
    ensures k !in cfg.jobs[i].keys
  {
    assert Counted(cfg, s, i) && Counted(cfg, s, j);
    WriterIsExclusive(cfg.jobs[j].keys[k]);
    assert k in Registered(cfg, s, j);
    assert k in cfg.jobs[i].keys ==> k in Registered(cfg, s, i);
    if i < j {
      RunningDoNotConflict(cfg, s, i, j, k);
    } else {
      RunningDoNotConflict(cfg, s, j, i, k);
    }
  }

  /** Only the phases and the queue moved. */
  predicate SameData(s: State, r: State) {
    r.shared == s.shared && r.log == s.log
  }

  lemma QuietStep(cfg: Config, shared0: Changes, s: State, r: State)
    requires InCommitOrder(cfg, shared0, s) && SameData(s, r)
    requires |s.tasks| <= |r.tasks| <= |cfg.jobs|
    requires forall i | 0 <= i < |s.tasks| :: BodyDone(s.tasks[i].phase) ==> BodyDone(r.tasks[i].phase)
    requires Sessions(cfg, r)
    ensures InCommitOrder(cfg, shared0, r)
  {
    assert Place(cfg, r.log) == Place(cfg, s.log);
  }

  lemma OperateKeepsSessions(cfg: Config, s: State, i: Id)
    requires |s.tasks| <= |cfg.jobs| && Sessions(cfg, s) && Enabled(cfg, s, Operate(i))
    ensures Sessions(cfg, Apply(cfg, s, Operate(i)))
  {
    var r := Apply(cfg, s, Operate(i));
    forall x | 0 <= x < |r.tasks| && r.tasks[x].phase.Running? ensures LiveSession(cfg, r, x) {
      assert LiveSession(cfg, s, x);
    }
  }

  /** The commit of task `j`: everybody else's session stands, and the log grows by one replayable entry. */
  lemma CommitStep(cfg: Config, shared0: Changes, s: State, j: Id, result: Result, r: State)
    requires Inv(cfg, s) && InCommitOrder(cfg, shared0, s)
    requires j < |s.tasks| && s.tasks[j].phase.Running?
    requires cfg.jobs[j].prog(s.tasks[j].phase.session.heard) == Return(Finish(result))
    requires r.tasks == s.tasks[j := s.tasks[j].(phase := Dropping)]
    requires r.shared == s.shared + s.tasks[j].phase.session.view.pending
    requires r.log == s.log + [Entry(j, result, |s.tasks[j].phase.session.heard|)]
    ensures InCommitOrder(cfg, shared0, r)
  {
    var x := s.tasks[j].phase.session;
    forall i | 0 <= i < |r.tasks| && r.tasks[i].phase.Running? ensures LiveSession(cfg, r, i) {
      OthersStand(cfg, shared0, s, j, r, i);
    }
    assert LiveSession(cfg, s, j);
    hide Inv, LiveSession, Alone;
    var block, block' := Place(cfg, s.log), Place(cfg, r.log);
    assert block'[..|block|] == block;
  }

  /** A commit changes nothing that another running body can see. */
  lemma OthersStand(cfg: Config, shared0: Changes, s: State, j: Id, r: State, i: Id)
    requires Inv(cfg, s) && InCommitOrder(cfg, shared0, s)
    requires j < |s.tasks| && s.tasks[j].phase.Running? && i < |s.tasks| && i != j && s.tasks[i].phase.Running?
    requires r.tasks == s.tasks[j := s.tasks[j].(phase := Dropping)]
    requires r.shared == s.shared + s.tasks[j].phase.session.view.pending
    ensures LiveSession(cfg, r, i)
  {
    var x := s.tasks[j].phase.session;
    assert LiveSession(cfg, s, j) && LiveSession(cfg, s, i);
    AloneConfined(cfg.jobs[j], cfg.base, s.shared, |x.heard|);
    forall k | k in x.view.pending ensures k !in cfg.jobs[i].keys { RunningAreDisjoint(cfg, s, i, j, k); }
    hide Inv, InCommitOrder;
    AloneLocal(cfg.jobs[i], cfg.base, s.shared, r.shared, |s.tasks[i].phase.session.heard|);
  }

  lemma SamePhases(cfg: Config, shared0: Changes, s: State, r: State)
    requires InCommitOrder(cfg, shared0, s) && SameData(s, r)
    requires |s.tasks| <= |r.tasks| <= |cfg.jobs|
    requires forall i | 0 <= i < |r.tasks| ::
               if i < |s.tasks| then r.tasks[i].phase == s.tasks[i].phase || BodyDone(r.tasks[i].phase)
               else r.tasks[i].phase.Idle?
    ensures InCommitOrder(cfg, shared0, r)
  {
    forall i | 0 <= i < |r.tasks| && r.tasks[i].phase.Running? ensures LiveSession(cfg, r, i) {
      assert LiveSession(cfg, s, i);
    }
    QuietStep(cfg, shared0, s, r);
  }

  lemma StartInCommitOrder(cfg: Config, shared0: Changes, s: State, h: Id)
    requires Dispatch(cfg, s) && InCommitOrder(cfg, shared0, s) && Enabled(cfg, s, Start(h))
    ensures InCommitOrder(cfg, shared0, Apply(cfg, s, Start(h)))
  {
    var r := Apply(cfg, s, Start(h));
    assert Counted(cfg, s, h);
    forall i | 0 <= i < |r.tasks| && r.tasks[i].phase.Running? ensures LiveSession(cfg, r, i) {
      if i != h {
        assert LiveSession(cfg, s, i);
      }
    }
    QuietStep(cfg, shared0, s, r);
  }

  /** What settling a body does to the data: commit it as it is, or nothing. */
  lemma SettleData(cfg: Config, s: State, i: Id, o: Outcome)
    requires i < |s.tasks| && s.tasks[i].phase.Running?
    ensures var r := Settle(cfg, s, i, o);
            || SameData(s, r)
            || (&& o.Finish?
                && r.shared == s.shared + s.tasks[i].phase.session.view.pending
                && r.log == s.log + [Entry(i, o.result, |s.tasks[i].phase.session.heard|)])
  {
  }

  lemma EndBodyInCommitOrder(cfg: Config, shared0: Changes, s: State, i: Id)
    requires Inv(cfg, s) && InCommitOrder(cfg, shared0, s) && Enabled(cfg, s, EndBody(i))
    ensures InCommitOrder(cfg, shared0, Apply(cfg, s, EndBody(i)))
  {
    var r := Apply(cfg, s, EndBody(i));
    var o := cfg.jobs[i].prog(s.tasks[i].phase.session.heard).outcome;
    SettleEffect(cfg, s, i, o);
    SettleData(cfg, s, i, o);
    if SameData(s, r) {
      SamePhases(cfg, shared0, s, r);
    } else {
      CommitStep(cfg, shared0, s, i, o.result, r);
    }
  }

  /** The steps that start no body, advance none and end none. */
  predicate Administrative(a: Action) {
    !a.Start? && !a.Operate? && !a.EndBody?
  }

  lemma AdministrativeEffect(cfg: Config, s: State, a: Action)
    requires |s.tasks| <= |cfg.jobs| && Enabled(cfg, s, a) && Administrative(a)
    ensures var r := Apply(cfg, s, a);
            && SameData(s, r)
            && |s.tasks| <= |r.tasks| <= |cfg.jobs|
            && forall i | 0 <= i < |r.tasks| ::
                 if i < |s.tasks| then r.tasks[i].phase == s.tasks[i].phase || BodyDone(r.tasks[i].phase)
                 else r.tasks[i].phase.Idle?
  {
    hide Advance, Settle, Blockers;
  }

  lemma OperateInCommitOrder(cfg: Config, shared0: Changes, s: State, i: Id)
    requires InCommitOrder(cfg, shared0, s) && Enabled(cfg, s, Operate(i))
    ensures InCommitOrder(cfg, shared0, Apply(cfg, s, Operate(i)))
  {
    OperateKeepsSessions(cfg, s, i);
    QuietStep(cfg, shared0, s, Apply(cfg, s, Operate(i)));
  }

  lemma StepInCommitOrder(cfg: Config, shared0: Changes, s: State, a: Action)
    requires Inv(cfg, s) && InCommitOrder(cfg, shared0, s) && Enabled(cfg, s, a)
    ensures InCommitOrder(cfg, shared0, Apply(cfg, s, a))
  {
    match a
    case Start(h) => StartInCommitOrder(cfg, shared0, s, h);
    case EndBody(i) => EndBodyInCommitOrder(cfg, shared0, s, i);
    case Operate(i) => OperateInCommitOrder(cfg, shared0, s, i);
    case _ =>
      AdministrativeEffect(cfg, s, a);
      SamePhases(cfg, shared0, s, Apply(cfg, s, a));
  }

  lemma {:induction false} RunInCommitOrder(cfg: Config, shared0: Changes, s: State, acts: seq<Action>)
    requires Inv(cfg, s) && InCommitOrder(cfg, shared0, s) && Runs(cfg, s, acts) && Timely(cfg, s, acts)
    ensures InCommitOrder(cfg, shared0, After(cfg, s, acts))
    decreases |acts|
  {
    if acts != [] {
      StepKeeps(cfg, s, acts[0]);
      StepInCommitOrder(cfg, shared0, s, acts[0]);
      RunInCommitOrder(cfg, shared0, Apply(cfg, s, acts[0]), acts[1..]);
    }
  }

  /**
   * Serializability in commit order, for every interleaving and whatever failed or was skipped: the
   * shared changes are those of running the committed tasks alone, one after the other in the order in
   * which they committed, and each of them returns its recorded result there.
   */
  lemma SerialInCommitOrder(cfg: Config, shared0: Changes, consumed0: Dimensions, acts: seq<Action>)
    requires Runs(cfg, Init(shared0, consumed0), acts) && Timely(cfg, Init(shared0, consumed0), acts)
    ensures var s := After(cfg, Init(shared0, consumed0), acts);
            && (forall p | 0 <= p < |s.log| :: s.log[p].id < |cfg.jobs|)
            && s.shared == Replay(cfg.base, shared0, Place(cfg, s.log))
            && ReplaysTo(cfg.base, shared0, Place(cfg, s.log))
  {
    InitInv(cfg, shared0, consumed0);
    assert Place(cfg, []) == [];
    RunInCommitOrder(cfg, shared0, Init(shared0, consumed0), acts);
  }
}
