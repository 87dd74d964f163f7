/** What a task may be made to wait for: the other half of the order, which keeps readers parallel. */
module ExecutorWaits {
  import opened Bytes
  import opened StateKeys
  import opened Views
  import opened Units
  import opened Executor
  import opened ExecutorOrder

  /** The job declares the key with exactly Read. */
  predicate Reads(cfg: Config, i: Id, k: Key) {
    i < |cfg.jobs| && k in cfg.jobs[i].keys && cfg.jobs[i].keys[k] == READ
  }

  /** The job declares the key with more than Read. */
  predicate Takes(cfg: Config, i: Id, k: Key) {
    i < |cfg.jobs| && k in cfg.jobs[i].keys && cfg.jobs[i].keys[k] != READ
  }

  /** The job declares the key, and no job before it does. */
  predicate First(cfg: Config, i: Id, k: Key) {
    && i < |cfg.jobs| && k in cfg.jobs[i].keys
    && forall h | 0 <= h < i :: k !in cfg.jobs[h].keys
  }

  /** Job `i` reads some key of job `o`. */
  ghost predicate ReadsFrom(cfg: Config, i: Id, o: Id) {
    exists k :: Reads(cfg, i, k) && o < |cfg.jobs| && k in cfg.jobs[o].keys
  }

  /** Job `j` shares the key with job `i`, which takes it or was the first to declare it, or takes it itself. */
  predicate SharesWith(cfg: Config, i: Id, j: Id, k: Key) {
    && i < |cfg.jobs| && k in cfg.jobs[i].keys && j < |cfg.jobs| && k in cfg.jobs[j].keys
    && (Takes(cfg, i, k) || First(cfg, i, k) || Takes(cfg, j, k))
  }

  /** Job `j` takes a key of some job `o` that `i` reads a key of. */
  ghost predicate TakesOver(cfg: Config, i: Id, j: Id, o: Id, k: Key) {
    Takes(cfg, j, k) && o < |cfg.jobs| && k in cfg.jobs[o].keys && ReadsFrom(cfg, i, o)
  }

  ghost predicate Reason(cfg: Config, i: Id, j: Id) {
    (exists k :: SharesWith(cfg, i, j, k)) || (exists o, k :: TakesOver(cfg, i, j, o, k))
  }

  /** Owners, readers and dependencies are what the declared keys make them. */
  ghost predicate Reasoned(cfg: Config, s: State) {
    OwnersReasoned(cfg, s.nodes) && ReadersReasoned(cfg, s) && DepsReasoned(cfg, s)
  }

  predicate OwnersReasoned(cfg: Config, nodes: map<Key, Id>) {
    forall k | k in nodes :: Takes(cfg, nodes[k], k) || First(cfg, nodes[k], k)
  }

  ghost predicate ReadersReasoned(cfg: Config, s: State) {
    forall o, r | 0 <= o < |s.tasks| && r in s.tasks[o].readers :: ReadsFrom(cfg, r, o)
  }

  ghost predicate DepsReasoned(cfg: Config, s: State) {
    forall j, i | 0 <= j < |s.tasks| && i in s.tasks[j].deps :: Reason(cfg, i, j)
  }

  /** No owner, reader or dependency is new. */
  predicate NoneNew(s: State, r: State) {
    && |s.tasks| == |r.tasks| && r.nodes == s.nodes
    && forall i | 0 <= i < |s.tasks| :: r.tasks[i].readers <= s.tasks[i].readers && r.tasks[i].deps == s.tasks[i].deps
  }

  lemma EndBodyNew(cfg: Config, s: State, i: Id)
    requires Enabled(cfg, s, EndBody(i))
    ensures NoneNew(s, Apply(cfg, s, EndBody(i)))
  {
    SettleEffect(cfg, s, i, cfg.jobs[i].prog(s.tasks[i].phase.session.heard).outcome);
    hide Settle;
  }

  lemma NotifyNew(cfg: Config, s: State, i: Id, b: Id)
    requires Enabled(cfg, s, Notify(i, b))
    ensures NoneNew(s, Apply(cfg, s, Notify(i, b)))
  {
  }

  lemma DropReaderNew(cfg: Config, s: State, i: Id, o: Id)
    requires Enabled(cfg, s, DropReader(i, o))
    ensures NoneNew(s, Apply(cfg, s, DropReader(i, o)))
  {
  }

  lemma EndRunNew(cfg: Config, s: State)
    requires Enabled(cfg, s, EndRun)
    ensures NoneNew(s, Apply(cfg, s, EndRun))
  {
  }

  lemma PhaseNew(s: State, i: Id, p: Phase)
    requires i < |s.tasks|
    ensures NoneNew(s, SetPhase(s, i, p))
  {
  }

  lemma OthersNew(cfg: Config, s: State, a: Action)
    requires Enabled(cfg, s, a) && !a.BeginRun? && !a.RegisterKey?
    ensures NoneNew(s, Apply(cfg, s, a))
  {
    match a
    case EndBody(i) => EndBodyNew(cfg, s, i);
    case Notify(i, b) => NotifyNew(cfg, s, i, b);
    case DropReader(i, o) => DropReaderNew(cfg, s, i, o);
    case EndRun => EndRunNew(cfg, s);
    case Start(i) => PhaseNew(s, i, if s.err.Some? then Dropping else Running(FRESH));
    case Operate(i) =>
      PhaseNew(s, i, Running(Advance(cfg.jobs[i], cfg.base, s.shared, s.tasks[i].phase.session)));
    case BeginNotify(i) => PhaseNew(s, i, Notifying);
    case EndNotify(i) => PhaseNew(s, i, Executed);
    case Stop =>
  }

  lemma NoneNewReasoned(cfg: Config, s: State, r: State)
    requires Reasoned(cfg, s) && NoneNew(s, r)
    ensures Reasoned(cfg, r)
  {
    hide Reason, ReadsFrom, First;
    assert forall o, x | 0 <= o < |r.tasks| && x in r.tasks[o].readers :: x in s.tasks[o].readers;
    assert forall j, i | 0 <= j < |r.tasks| && i in r.tasks[j].deps :: i in s.tasks[j].deps;
  }

  lemma BeginReasoned(cfg: Config, s: State)
    requires Reasoned(cfg, s) && Enabled(cfg, s, BeginRun)
    ensures Reasoned(cfg, Apply(cfg, s, BeginRun))
  {
    hide Reason, ReadsFrom, First;
    var r := Apply(cfg, s, BeginRun);
    assert forall i | 0 <= i < |s.tasks| :: r.tasks[i] == s.tasks[i];
  }

  /** A key that nobody owns was declared by nobody before. */
  lemma UnownedIsFirst(cfg: Config, s: State, k: Key)
    requires Inv(cfg, s) && Enabled(cfg, s, RegisterKey(k)) && k !in s.nodes
    ensures First(cfg, |s.tasks| - 1, k)
  {
    hide Links, Dispatch, Order;
    forall h: nat | h < |s.tasks| - 1
      ensures k !in cfg.jobs[h].keys
    {
      assert k in Registered(cfg, s, h) ==> Owned(cfg, s, h, k);
    }
  }

  lemma BlockersReasoned(cfg: Config, s: State, k: Key, i: Id)
    requires Links(cfg, s) && Reasoned(cfg, s) && Enabled(cfg, s, RegisterKey(k)) && i in Blockers(cfg, s, k)
    ensures Reason(cfg, i, |s.tasks| - 1)
  {
    hide Linked, First, ReadsFrom;
    var (j, o) := (|s.tasks| - 1, s.nodes[k]);
    if i == o {
      assert SharesWith(cfg, i, j, k);
    } else {
      assert TakesOver(cfg, i, j, o, k);
    }
  }

  lemma RegisterNodes(cfg: Config, s: State, k: Key)
    requires Enabled(cfg, s, RegisterKey(k))
    ensures var j := |s.tasks| - 1;
            Register(cfg, s, k).nodes == if k in s.nodes && Reads(cfg, j, k) then s.nodes else s.nodes[k := j]
  {
    hide Blockers;
  }

  lemma OwnersMore(cfg: Config, nodes: map<Key, Id>, k: Key, j: Id)
    requires OwnersReasoned(cfg, nodes) && (Takes(cfg, j, k) || First(cfg, j, k))
    ensures OwnersReasoned(cfg, nodes[k := j])
  {
    hide Takes, First;
  }

  lemma RegisterOwnersReasoned(cfg: Config, s: State, k: Key)
    requires Inv(cfg, s) && OwnersReasoned(cfg, s.nodes) && Enabled(cfg, s, RegisterKey(k))
    ensures OwnersReasoned(cfg, Register(cfg, s, k).nodes)
  {
    hide Inv, Register, OwnersReasoned, First;
    var j := |s.tasks| - 1;
    RegisterNodes(cfg, s, k);
    if k !in s.nodes {
      UnownedIsFirst(cfg, s, k);
      OwnersMore(cfg, s.nodes, k, j);
    } else if !Reads(cfg, j, k) {
      OwnersMore(cfg, s.nodes, k, j);
    }
  }

  lemma RegisterReadersReasoned(cfg: Config, s: State, k: Key)
    requires Links(cfg, s) && ReadersReasoned(cfg, s) && Enabled(cfg, s, RegisterKey(k))
    ensures ReadersReasoned(cfg, Register(cfg, s, k))
  {
    hide Blockers, Linked;
    var (j, r) := (|s.tasks| - 1, Register(cfg, s, k));
    forall o, x | 0 <= o < |r.tasks| && x in r.tasks[o].readers
      ensures ReadsFrom(cfg, x, o)
    {
      if x !in s.tasks[o].readers {
        assert Reads(cfg, j, k);
      }
    }
  }

  lemma RegisterDeps(cfg: Config, s: State, k: Key)
    requires Enabled(cfg, s, RegisterKey(k))
    ensures var (j, r) := (|s.tasks| - 1, Register(cfg, s, k));
            && |r.tasks| == |s.tasks| && r.tasks[j].deps == s.tasks[j].deps + Blockers(cfg, s, k)
            && forall i | 0 <= i < j :: r.tasks[i].deps == s.tasks[i].deps
  {
    hide Blockers;
  }

  lemma RegisterReasoned(cfg: Config, s: State, k: Key)
    requires Inv(cfg, s) && Reasoned(cfg, s) && Enabled(cfg, s, RegisterKey(k))
    ensures Reasoned(cfg, Register(cfg, s, k))
  {
    RegisterOwnersReasoned(cfg, s, k);
    RegisterReadersReasoned(cfg, s, k);
    RegisterDeps(cfg, s, k);
    var (j, r) := (|s.tasks| - 1, Register(cfg, s, k));
    forall i | i in Blockers(cfg, s, k)
      ensures Reason(cfg, i, j)
    {
      BlockersReasoned(cfg, s, k, i);
    }
    hide Register, Blockers, Reason, OwnersReasoned, ReadersReasoned, Inv;
  }

  lemma StepReasoned(cfg: Config, s: State, a: Action)
    requires Inv(cfg, s) && Reasoned(cfg, s) && Enabled(cfg, s, a)
    ensures Reasoned(cfg, Apply(cfg, s, a))
  {
    hide Inv, Reasoned;
    match a
    case BeginRun => BeginReasoned(cfg, s);
    case RegisterKey(k) => RegisterReasoned(cfg, s, k);
    case _ =>
      OthersNew(cfg, s, a);
      NoneNewReasoned(cfg, s, Apply(cfg, s, a));
  }

  lemma {:induction false} RunReasoned(cfg: Config, s: State, acts: seq<Action>)
    requires Inv(cfg, s) && Reasoned(cfg, s) && Runs(cfg, s, acts) && Timely(cfg, s, acts)
    ensures Reasoned(cfg, After(cfg, s, acts))
    decreases |acts|
  {
    hide Inv, Reasoned, Apply, Enabled, Premature;
    if acts != [] {
      StepReasoned(cfg, s, acts[0]);
      StepKeeps(cfg, s, acts[0]);
      RunReasoned(cfg, Apply(cfg, s, acts[0]), acts[1..]);
    }
  }

  /**
   * In every interleaving a task depends on another only for a reason: they share a key that one of them
   * holds with more than Read or that the other was the first to declare; or it takes a key of a third
   * task that the other reads something of.
   */
  lemma WaitsHaveReasons(cfg: Config, shared: Changes, consumed: Dimensions, acts: seq<Action>, i: Id, j: Id)
    requires Runs(cfg, Init(shared, consumed), acts) && Timely(cfg, Init(shared, consumed), acts)
    requires var s := After(cfg, Init(shared, consumed), acts); j < |s.tasks| && i in s.tasks[j].deps
    ensures Reason(cfg, i, j)
  {
    InitInv(cfg, shared, consumed);
    assert Reasoned(cfg, Init(shared, consumed));
    RunReasoned(cfg, Init(shared, consumed), acts);
    hide After, Reason, ReadsFrom, First;
  }

  /** So a task that only reads waits for no other reader of its keys but the first to declare one. */
  lemma ReadersRunTogether(cfg: Config, shared: Changes, consumed: Dimensions, acts: seq<Action>, i: Id, j: Id)
    requires Runs(cfg, Init(shared, consumed), acts) && Timely(cfg, Init(shared, consumed), acts)
    requires var s := After(cfg, Init(shared, consumed), acts); j < |s.tasks| && i in s.tasks[j].deps
    requires forall k :: !Takes(cfg, j, k)
    ensures exists k :: Reads(cfg, j, k) && (Takes(cfg, i, k) || First(cfg, i, k))
  {
    WaitsHaveReasons(cfg, shared, consumed, acts, i, j);
    hide After, ReadsFrom, First;
    assert forall o, k :: !TakesOver(cfg, i, j, o, k);
    var k :| SharesWith(cfg, i, j, k);
    assert !Takes(cfg, j, k) && Reads(cfg, j, k);
  }
}
