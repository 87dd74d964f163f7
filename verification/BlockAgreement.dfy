/**
 * A block that was built is a block that verifies. The builder commits transactions in whatever order
 * they finish and as long as their units fit; the processor consumes the recorded transactions' units
 * up front and runs them in their recorded order.
 */
module BlockAgreement {
  import opened Bytes
  import opened StateKeys
  import opened Views
  import opened Units
  import opened Executor
  import opened ExecutorOrder
  import opened Serializability
  import opened QueueOrder
  import Transaction

  /** A transaction and the state keys it declares. */
  datatype Signed = Signed(tx: Transaction.Tx, keys: Keys)

  ghost function Jobs(block: seq<Placed>): (jobs: seq<Job>) {
    seq(|block|, p requires 0 <= p < |block| => block[p].job)
  }

  /** What the builder consumes: the units of each result, as it commits. */
  function Recorded(block: seq<Placed>): (units: seq<Dimensions>) {
    seq(|block|, p requires 0 <= p < |block| => block[p].result.units)
  }

  /** What the processor consumes: the units of each transaction, before it runs any. */
  function Declared(txs: seq<Signed>): (units: seq<Dimensions>) {
    seq(|txs|, p requires 0 <= p < |txs| => txs[p].tx.units)
  }

  lemma {:induction false} ReplayAppends(base: Store, shared: Changes, a: seq<Placed>, b: seq<Placed>)
    ensures Replay(base, shared, a + b) == Replay(base, Replay(base, shared, a), b)
    ensures ReplaysTo(base, shared, a) && ReplaysTo(base, Replay(base, shared, a), b) ==> ReplaysTo(base, shared, a + b)
    decreases |b|
  {
    if b == [] {
      assert a + b == a;
    } else {
      ReplayAppends(base, shared, a, b[..|b| - 1]);
      assert (a + b)[..|a + b| - 1] == a + b[..|b| - 1];
    }
  }

  // ---------------------------------------------------------------------------------------------
  // Building
  // ---------------------------------------------------------------------------------------------

  ghost predicate Accounted(cfg: Config, consumed0: Dimensions, s: State)
    requires cfg.mode.Build?
  {
    && (forall p | 0 <= p < |s.log| :: s.log[p].id < |cfg.jobs|)
    && ConsumeAll(consumed0, Recorded(Place(cfg, s.log)), cfg.mode.max) == Some(s.consumed)
  }

  lemma StepAccounted(cfg: Config, consumed0: Dimensions, s: State, a: Action)
    requires cfg.mode.Build? && Accounted(cfg, consumed0, s) && Enabled(cfg, s, a)
    ensures Accounted(cfg, consumed0, Apply(cfg, s, a))
  {
    var r := Apply(cfg, s, a);
    if a.EndBody? {
      var o := cfg.jobs[a.id].prog(s.tasks[a.id].phase.session.heard).outcome;
      SettleAccounts(cfg, s, a.id, o);
      if r.log != s.log {
        assert Recorded(Place(cfg, r.log))[..|s.log|] == Recorded(Place(cfg, s.log));
      }
    } else {
      SameAccounts(cfg, s, a);
    }
  }

  lemma SameAccounts(cfg: Config, s: State, a: Action)
    requires Enabled(cfg, s, a) && !a.EndBody?
    ensures Apply(cfg, s, a).log == s.log && Apply(cfg, s, a).consumed == s.consumed
  {
  }

  /** The builder logs a transaction exactly when it counts its units, and only if they fit. */
  lemma SettleAccounts(cfg: Config, s: State, i: Id, o: Outcome)
    requires cfg.mode.Build? && i < |s.tasks| && s.tasks[i].phase.Running?
    ensures var r := Settle(cfg, s, i, o);
            || (r.log == s.log && r.consumed == s.consumed)
            || (&& o.Finish? && Fits(s.consumed, o.result.units, cfg.mode.max)
                && r.consumed == Plus(s.consumed, o.result.units, cfg.mode.max)
                && r.log == s.log + [Entry(i, o.result, |s.tasks[i].phase.session.heard|)])
  {
  }

  lemma {:induction false} RunAccounted(cfg: Config, consumed0: Dimensions, s: State, acts: seq<Action>)
    requires cfg.mode.Build? && Accounted(cfg, consumed0, s) && Runs(cfg, s, acts)
    ensures Accounted(cfg, consumed0, After(cfg, s, acts))
    decreases |acts|
  {
    if acts != [] {
      StepAccounted(cfg, consumed0, s, acts[0]);
      RunAccounted(cfg, consumed0, Apply(cfg, s, acts[0]), acts[1..]);
    }
  }

  /** One batch streamed from the mempool: its transactions, and how the threads interleaved on them. */
  datatype Batch = Batch(txs: seq<Signed>, maxDependencies: nat, acts: seq<Action>)

  /** The block so far: its transactions in the order they were committed, each with what it ended in. */
  datatype Built = Built(shared: Changes, consumed: Dimensions, block: seq<Placed>, txs: seq<Signed>)

  ghost function TxJobs(txs: seq<Signed>): (jobs: seq<Job>) {
    seq(|txs|, i requires 0 <= i < |txs| => Transaction.TxJob(txs[i].tx, txs[i].keys))
  }

  ghost function Builder(base: Store, max: Dimensions, target: Dimensions, batch: Batch): (cfg: Config) {
    Config(base, TxJobs(batch.txs), batch.maxDependencies, Build(max, target))
  }

  /** The transactions that a log commits, in its order. */
  function Picked(txs: seq<Signed>, log: seq<Entry>): (r: seq<Signed>)
    requires forall p | 0 <= p < |log| :: log[p].id < |txs|
  {
    seq(|log|, p requires 0 <= p < |log| => txs[log[p].id])
  }

  ghost predicate BuildsBatch(base: Store, max: Dimensions, target: Dimensions, b: Built, batch: Batch) {
    var cfg := Builder(base, max, target, batch);
    Runs(cfg, Init(b.shared, b.consumed), batch.acts) && Timely(cfg, Init(b.shared, b.consumed), batch.acts)
  }

  /** A batch runs on its own executor, on top of what the block holds so far. */
  ghost function AddBatch(base: Store, max: Dimensions, target: Dimensions, b: Built, batch: Batch): (r: Built)
    requires BuildsBatch(base, max, target, b, batch)
  {
    var cfg := Builder(base, max, target, batch);
    var s := After(cfg, Init(b.shared, b.consumed), batch.acts);
    SerialInCommitOrder(cfg, b.shared, b.consumed, batch.acts);
    Built(s.shared, s.consumed, b.block + Place(cfg, s.log), b.txs + Picked(batch.txs, s.log))
  }

  ghost predicate Builds(base: Store, max: Dimensions, target: Dimensions, b: Built, batches: seq<Batch>)
    decreases |batches|
  {
    batches != [] ==>
      && BuildsBatch(base, max, target, b, batches[0])
      && Builds(base, max, target, AddBatch(base, max, target, b, batches[0]), batches[1..])
  }

  ghost function BuildAll(base: Store, max: Dimensions, target: Dimensions, b: Built, batches: seq<Batch>): (r: Built)
    requires Builds(base, max, target, b, batches)
    decreases |batches|
  {
    if batches == [] then b
    else BuildAll(base, max, target, AddBatch(base, max, target, b, batches[0]), batches[1..])
  }

  /** The block so far replays to the state so far, and its units were all consumed within the limit. */
  ghost predicate Sound(base: Store, max: Dimensions, shared0: Changes, b: Built) {
    && Jobs(b.block) == TxJobs(b.txs)
    && b.shared == Replay(base, shared0, b.block)
    && ReplaysTo(base, shared0, b.block)
    && ConsumeAll(ZERO, Recorded(b.block), max) == Some(b.consumed)
  }

  lemma InitAccounted(cfg: Config, shared: Changes, consumed: Dimensions)
    requires cfg.mode.Build?
    ensures Accounted(cfg, consumed, Init(shared, consumed))
  {
    assert Recorded(Place(cfg, [])) == [];
  }

  lemma PickedJobs(base: Store, max: Dimensions, target: Dimensions, batch: Batch, log: seq<Entry>)
    requires forall p | 0 <= p < |log| :: log[p].id < |batch.txs|
    ensures Jobs(Place(Builder(base, max, target, batch), log)) == TxJobs(Picked(batch.txs, log))
  {
  }

  lemma BlockAppends(a: seq<Placed>, b: seq<Placed>, txs: seq<Signed>, more: seq<Signed>)
    ensures Recorded(a + b) == Recorded(a) + Recorded(b)
    ensures Jobs(a + b) == Jobs(a) + Jobs(b)
    ensures TxJobs(txs + more) == TxJobs(txs) + TxJobs(more)
  {
  }

  lemma AddBatchSound(base: Store, max: Dimensions, target: Dimensions, shared0: Changes, b: Built, batch: Batch)
    requires Sound(base, max, shared0, b) && BuildsBatch(base, max, target, b, batch)
    ensures Sound(base, max, shared0, AddBatch(base, max, target, b, batch))
  {
    assert |TxJobs(batch.txs)| == |batch.txs|;
    hide Timely, Runs, After, Replay, ReplaysTo, ConsumeAll, Recorded, Jobs, TxJobs, Picked;
    var cfg := Builder(base, max, target, batch);
    SerialInCommitOrder(cfg, b.shared, b.consumed, batch.acts);
    InitAccounted(cfg, b.shared, b.consumed);
    RunAccounted(cfg, b.consumed, Init(b.shared, b.consumed), batch.acts);
    var log := After(cfg, Init(b.shared, b.consumed), batch.acts).log;
    var more := Place(cfg, log);
    ReplayAppends(base, shared0, b.block, more);
    ConsumeAllAppends(ZERO, Recorded(b.block), Recorded(more), max);
    PickedJobs(base, max, target, batch, log);
    BlockAppends(b.block, more, b.txs, Picked(batch.txs, log));
  }

  lemma {:induction false} BuildAllSound(base: Store, max: Dimensions, target: Dimensions, shared0: Changes, b: Built,
                                         batches: seq<Batch>)
    requires Sound(base, max, shared0, b) && Builds(base, max, target, b, batches)
    ensures Sound(base, max, shared0, BuildAll(base, max, target, b, batches))
    decreases |batches|
  {
    if batches != [] {
      AddBatchSound(base, max, target, shared0, b, batches[0]);
      BuildAllSound(base, max, target, shared0, AddBatch(base, max, target, b, batches[0]), batches[1..]);
    }
  }

  // ---------------------------------------------------------------------------------------------
  // Verifying what was built
  // ---------------------------------------------------------------------------------------------

  ghost function Verifier(base: Store, block: seq<Placed>, maxDependencies: nat): (cfg: Config) {
    Config(base, Jobs(block), maxDependencies, Process)
  }

  lemma {:induction false} ReplayPrefix(base: Store, shared: Changes, block: seq<Placed>, m: nat)
    requires m < |block| && ReplaysTo(base, shared, block)
    ensures ReplaysTo(base, shared, block[..m])
    ensures block[m].job.prog(Alone(block[m].job, base, Replay(base, shared, block[..m]), block[m].steps).heard)
            == Return(Finish(block[m].result))
    decreases |block|
  {
    var most := block[..|block| - 1];
    if m < |most| {
      ReplayPrefix(base, shared, most, m);
      assert most[..m] == block[..m];
    }
  }

  lemma WrittenIsRecorded(cfg: Config, shared: Changes, j: nat, steps: nat)
    requires j < |cfg.jobs|
    requires var before := Sequential(cfg, shared, j);
             var op := cfg.jobs[j].prog(Alone(cfg.jobs[j], cfg.base, before, steps).heard);
             op.Return? && op.outcome.Finish?
    ensures Written(cfg, shared, j) == Alone(cfg.jobs[j], cfg.base, Sequential(cfg, shared, j), steps).view.pending
  {
    var job, before := cfg.jobs[j], Sequential(cfg, shared, j);
    EndOf(job, cfg.base, before, steps);
  }

  /** Running the block's jobs one by one is replaying the block. */
  lemma {:induction false} SequentialIsReplay(base: Store, shared: Changes, block: seq<Placed>, max: nat, m: nat)
    requires m <= |block| && ReplaysTo(base, shared, block)
    ensures Sequential(Verifier(base, block, max), shared, m) == Replay(base, shared, block[..m])
    ensures m < |block| ==>
              var before := Sequential(Verifier(base, block, max), shared, m);
              block[m].job.prog(Alone(block[m].job, base, before, block[m].steps).heard)
              == Return(Finish(block[m].result))
  {
    var cfg := Verifier(base, block, max);
    if m > 0 {
      SequentialIsReplay(base, shared, block, max, m - 1);
      WrittenIsRecorded(cfg, shared, m - 1, block[m - 1].steps);
      assert block[..m][..m - 1] == block[..m - 1];
    }
    if m < |block| {
      ReplayPrefix(base, shared, block, m);
    }
  }

  /** A body of a replayable block cannot end with anything but its recorded result. */
  lemma OnlyRecordedOutcome(base: Store, shared0: Changes, block: seq<Placed>, max: nat, s: State, i: Id)
    requires ReplaysTo(base, shared0, block)
    requires var cfg := Verifier(base, block, max);
             && Inv(cfg, s) && InCommitOrder(cfg, shared0, s) && InQueueOrder(cfg, shared0, s)
             && Enabled(cfg, s, EndBody(i))
    ensures block[i].job.prog(s.tasks[i].phase.session.heard) == Return(Finish(block[i].result))
  {
    var cfg := Verifier(base, block, max);
    var x := s.tasks[i].phase.session;
    var before := Sequential(cfg, shared0, i);
    assert LiveSession(cfg, s, i);
    SeesSequential(cfg, shared0, s, i);
    AloneLocal(cfg.jobs[i], base, s.shared, before, |x.heard|);
    SequentialIsReplay(base, shared0, block, max, i);
    ReturnedOnce(block[i].job, base, before, block[i].steps, |x.heard|);
  }

  predicate NoStop(acts: seq<Action>) {
    forall p | 0 <= p < |acts| :: !acts[p].Stop?
  }

  lemma OthersRaiseNothing(cfg: Config, s: State, a: Action)
    requires Enabled(cfg, s, a) && !a.Stop? && !a.EndBody? && s.err.Nothing?
    ensures Apply(cfg, s, a).err.Nothing?
  {
  }

  lemma RecordedRaisesNothing(base: Store, shared0: Changes, block: seq<Placed>, max: nat, s: State, i: Id)
    requires ReplaysTo(base, shared0, block) && s.err.Nothing?
    requires var cfg := Verifier(base, block, max);
             && Inv(cfg, s) && InCommitOrder(cfg, shared0, s) && InQueueOrder(cfg, shared0, s)
             && Enabled(cfg, s, EndBody(i))
    ensures Apply(Verifier(base, block, max), s, EndBody(i)).err.Nothing?
  {
    hide Inv, InCommitOrder, InQueueOrder, ReplaysTo;
    OnlyRecordedOutcome(base, shared0, block, max, s, i);
  }

  /** Verifying a replayable block raises no error in any interleaving. */
  lemma {:induction false} VerifiesWithoutError(base: Store, shared0: Changes, block: seq<Placed>, max: nat, s: State,
                                                acts: seq<Action>)
    requires ReplaysTo(base, shared0, block) && NoStop(acts)
    requires var cfg := Verifier(base, block, max);
             && Inv(cfg, s) && InCommitOrder(cfg, shared0, s) && InQueueOrder(cfg, shared0, s) && s.err.Nothing?
             && Runs(cfg, s, acts) && Timely(cfg, s, acts)
    ensures After(Verifier(base, block, max), s, acts).err.Nothing?
    decreases |acts|
  {
    hide Inv, InCommitOrder, InQueueOrder, Apply, Enabled, ReplaysTo, Premature;
    if acts != [] {
      var cfg := Verifier(base, block, max);
      var a := acts[0];
      var next := Apply(cfg, s, a);
      if a.EndBody? {
        RecordedRaisesNothing(base, shared0, block, max, s, a.id);
      } else {
        OthersRaiseNothing(cfg, s, a);
      }
      StepKeeps(cfg, s, a);
      StepInCommitOrder(cfg, shared0, s, a);
      StepInQueueOrder(cfg, shared0, s, a);
      VerifiesWithoutError(base, shared0, block, max, next, acts[1..]);
    }
  }

  // ---------------------------------------------------------------------------------------------
  // Agreement
  // ---------------------------------------------------------------------------------------------

  /** Whatever a transaction hears, the result it ends in has the units it declares. */
  lemma {:induction false} StageUnits(tx: Transaction.Tx, heard: seq<Response>)
    ensures var st := Transaction.StageAfter(tx, heard);
            st.Ended? && st.outcome.Finish? ==> st.outcome.result.units == tx.units
  {
    if heard != [] {
      var most := heard[..|heard| - 1];
      StageUnits(tx, most);
      HearUnits(tx, Transaction.StageAfter(tx, most), heard[|heard| - 1]);
    }
  }

  lemma HearUnits(tx: Transaction.Tx, st: Transaction.Stage, resp: Response)
    requires st.Ended? && st.outcome.Finish? ==> st.outcome.result.units == tx.units
    ensures var r := Transaction.Hear(tx, st, resp);
            r.Ended? && r.outcome.Finish? ==> r.outcome.result.units == tx.units
  {
    if tx.fee.Some? {
      match st
      case Marking => if resp.Position? { ProceedUnits(tx, resp.n, 0, [], []); }
      case Acting(start, i, heard, outs) => if i <= |tx.actions| { ProceedUnits(tx, start, i, heard + [resp], outs); }
      case _ =>
    }
  }

  lemma {:induction false} ProceedUnits(tx: Transaction.Tx, start: nat, i: nat, heard: seq<Response>,
                                        outputs: seq<Bytes>)
    requires tx.fee.Some? && i <= |tx.actions|
    ensures var r := Transaction.Proceed(tx, start, i, heard, outputs);
            r.Ended? && r.outcome.Finish? ==> r.outcome.result.units == tx.units
    decreases |tx.actions| - i
  {
    if i < |tx.actions| && tx.actions[i](heard).ActDone? {
      ProceedUnits(tx, start, i + 1, [], outputs + [tx.actions[i](heard).output]);
    }
  }

  lemma FinishedUnits(t: Signed, heard: seq<Response>, result: Result)
    requires Transaction.TxJob(t.tx, t.keys).prog(heard) == Return(Finish(result))
    ensures result.units == t.tx.units
  {
    StageUnits(t.tx, heard);
  }

  /** So what the builder consumed as it committed is what the processor consumes up front. */
  lemma RecordedIsDeclared(base: Store, shared: Changes, block: seq<Placed>, txs: seq<Signed>)
    requires ReplaysTo(base, shared, block) && Jobs(block) == TxJobs(txs)
    ensures Recorded(block) == Declared(txs)
  {
    hide ReplaysTo, Replay, Alone, Transaction.TxJob;
    assert |Jobs(block)| == |TxJobs(txs)|;
    forall p | 0 <= p < |block| ensures block[p].result.units == txs[p].tx.units {
      ReplayPrefix(base, shared, block, p);
      assert Jobs(block)[p] == TxJobs(txs)[p];
      var x := Alone(block[p].job, base, Replay(base, shared, block[..p]), block[p].steps);
      FinishedUnits(txs[p], x.heard, block[p].result);
    }
  }

  /**
   * Builder and processor agree. Take any block built from any batches of transactions in any
   * interleavings. Consuming the units its transactions declare, in block order and before running any,
   * never exceeds the limits and ends with the builder's consumption, their sum. Verifying it raises no
   * error in any interleaving, every transaction that ends has the result the builder recorded, and when
   * all have ended the shared changes are the builder's.
   */
  lemma BuilderProcessorAgree(base: Store, max: Dimensions, target: Dimensions, shared0: Changes, batches: seq<Batch>,
                              maxDependencies: nat, consumed: Dimensions, acts: seq<Action>)
    requires Builds(base, max, target, Built(shared0, ZERO, [], []), batches)
    requires var built := BuildAll(base, max, target, Built(shared0, ZERO, [], []), batches);
             var cfg := Config(base, TxJobs(built.txs), maxDependencies, Process);
             && Runs(cfg, Init(shared0, consumed), acts) && Timely(cfg, Init(shared0, consumed), acts) && NoStop(acts)
    ensures var built := BuildAll(base, max, target, Built(shared0, ZERO, [], []), batches);
            var cfg := Config(base, TxJobs(built.txs), maxDependencies, Process);
            var s := After(cfg, Init(shared0, consumed), acts);
            && |built.block| == |built.txs|
            && ConsumeAll(ZERO, Declared(built.txs), max) == Some(built.consumed)
            && (forall d | 0 <= d < FEE_DIMENSIONS :: built.consumed[d] == TotalUnits(Declared(built.txs), d))
            && (built.txs != [] ==> forall d | 0 <= d < FEE_DIMENSIONS :: built.consumed[d] <= max[d])
            && s.err.Nothing?
            && (forall e | e in s.log :: e.id < |built.block| && e.result == built.block[e.id].result)
            && (|s.tasks| == |built.txs| && (forall i | 0 <= i < |s.tasks| :: BodyDone(s.tasks[i].phase)) ==>
                  && s.shared == built.shared
                  && (forall i | 0 <= i < |built.txs| :: i in Committed(s)))
  {
    var b0 := Built(shared0, ZERO, [], []);
    var built := BuildAll(base, max, target, b0, batches);
    assert Jobs([]) == TxJobs([]);
    BuildAllSound(base, max, target, shared0, b0, batches);
    RecordedIsDeclared(base, shared0, built.block, built.txs);
    assert |Jobs(built.block)| == |TxJobs(built.txs)|;
    var units := Declared(built.txs);
    forall d | 0 <= d < FEE_DIMENSIONS
      ensures built.consumed[d] == TotalUnits(units, d) && (units != [] ==> built.consumed[d] <= max[d])
    {
      ConsumedTotal(ZERO, units, max, d);
    }
    VerifierAgrees(base, shared0, built.block, maxDependencies, consumed, acts);
  }

  lemma VerifierAgrees(base: Store, shared0: Changes, block: seq<Placed>, max: nat, consumed: Dimensions,
                       acts: seq<Action>)
    requires ReplaysTo(base, shared0, block)
    requires var cfg := Verifier(base, block, max);
             Runs(cfg, Init(shared0, consumed), acts) && Timely(cfg, Init(shared0, consumed), acts) && NoStop(acts)
    ensures var s := After(Verifier(base, block, max), Init(shared0, consumed), acts);
            && s.err.Nothing?
            && (forall e | e in s.log :: e.id < |block| && e.result == block[e.id].result)
            && (|s.tasks| == |block| && (forall i | 0 <= i < |s.tasks| :: BodyDone(s.tasks[i].phase)) ==>
                  && s.shared == Replay(base, shared0, block)
                  && (forall i | 0 <= i < |block| :: i in Committed(s)))
  {
    var cfg := Verifier(base, block, max);
    var s0 := Init(shared0, consumed);
    InitInv(cfg, shared0, consumed);
    assert Place(cfg, []) == [];
    PartialFirst(cfg, shared0, {}, 0, |cfg.jobs|);
    assert Committed(s0) == {};
    VerifiesWithoutError(base, shared0, block, max, s0, acts);
    SerialInQueueOrder(cfg, shared0, consumed, acts);
    var s := After(cfg, s0, acts);
    forall e | e in s.log ensures e.id < |block| && e.result == block[e.id].result {
      assert Sequentially(cfg, shared0, e);
      SequentialIsReplay(base, shared0, block, max, e.id);
      ReturnedOnce(block[e.id].job, base, Sequential(cfg, shared0, e.id), e.steps, block[e.id].steps);
    }
    SequentialIsReplay(base, shared0, block, max, |block|);
    assert block[..|block|] == block;
  }
}
